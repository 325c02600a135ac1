/** Waiting for a background evaluation: exit codes, the event loop and the polling after a disconnect. */
module BackgroundWait {
  import opened Common

  /* ---- Statuses and exit codes ---- */

  datatype ManifestStatus = Pending | InProgress | Passed | Failed | FailedInterrupted | PendingReview | Queued

  /** `metricsFailed`: a layer was halted because its metrics could not be stored. */
  datatype Manifest = Manifest(featureId: string, overall: ManifestStatus, metricsFailed: bool)

  datatype Terminal = Terminal(wire: string, code: nat)

  const WAIT_TIMEOUT := 4
  const DAEMON_DISCONNECTED := 5

  function TerminalExitCode(s: ManifestStatus): Option<nat> {
    match s
    case Passed => Some(0)
    case Failed => Some(2)
    case FailedInterrupted => Some(2)
    case PendingReview => Some(3)
    case _ => None
  }

  function StatusWire(s: ManifestStatus): string {
    match s
    case Pending => "pending"
    case InProgress => "in-progress"
    case Passed => "passed"
    case Failed => "failed"
    case FailedInterrupted => "failed-interrupted"
    case PendingReview => "pending-review"
    case Queued => "queued"
  }

  function TerminalOutcome(m: Manifest): Option<Terminal> {
    if m.metricsFailed then Some(Terminal("metrics-persist-failed", 1))
    else match TerminalExitCode(m.overall)
         case Some(code) => Some(Terminal(StatusWire(m.overall), code))
         case None => None
  }

  /* ---- Events ---- */

  /** A JSON member: not there, no string, or a string. */
  datatype Member = Absent | NoString | Text(text: string)

  datatype Event = FeatureComplete(exitStatus: Member, overallStatus: Member, status: Member) | Cancelled | OtherEvent

  /** A notification carries an event when its method and its payload are those of manifest events. */
  datatype Notification = Notification(event: Option<Event>)

  function OrElse(a: Member, b: Member): Member {
    if a.Absent? then b else a
  }

  function CodeOfWire(wire: string): nat {
    if wire == "passed" then 0
    else if wire == "pending-review" then 3
    else if wire == "metrics-persist-failed" then 1
    else 2
  }

  function ParseTerminal(n: Notification): Option<Terminal> {
    match n.event
    case Some(FeatureComplete(x, o, s)) =>
      var wire := match OrElse(x, OrElse(o, s)) case Text(t) => t case _ => "failed";
      Some(Terminal(wire, CodeOfWire(wire)))
    case Some(Cancelled) => Some(Terminal("cancelled", 2))
    case _ => None
  }

  /** The event the daemon sends when a feature completes with this manifest. */
  function CompletionEvent(m: Manifest): Notification {
    var wire := StatusWire(m.overall);
    var exit := if m.metricsFailed then "metrics-persist-failed" else wire;
    Notification(Some(FeatureComplete(Text(exit), Text(wire), Text(wire))))
  }

  /** The event of an older daemon, which has no exit status. */
  function LegacyEvent(m: Manifest): Notification {
    Notification(Some(FeatureComplete(Absent, Absent, Text(StatusWire(m.overall)))))
  }

  lemma {:induction false} WiresDiffer()
    ensures "passed" != "pending-review" && "passed" != "metrics-persist-failed" && "pending-review" != "metrics-persist-failed"
  {
    assert "passed"[1] == 'a' && "pending-review"[1] == 'e';
    assert |"passed"| == 6 && |"metrics-persist-failed"| == 22 && |"pending-review"| == 14;
  }

  lemma {:induction false} CodeOfStatusWire(s: ManifestStatus)
    ensures CodeOfWire(StatusWire(s)) == match TerminalExitCode(s) case Some(c) => c case None => 2
  {
    WiresDiffer();
    assert |"pending"| == 7 && |"in-progress"| == 11 && |"failed"| == 6 && |"failed-interrupted"| == 18 && |"queued"| == 6;
    assert "failed"[0] == 'f' && "queued"[0] == 'q' && "passed"[0] == 'p';
  }

  /** The completion event and the snapshot give the same outcome for exactly the manifests the snapshot
      calls terminal; for the others the event still ends the wait. */
  lemma {:induction false} EventAgreesWithSnapshot(m: Manifest)
    ensures ParseTerminal(CompletionEvent(m)) == TerminalOutcome(m) <==> m.metricsFailed || TerminalExitCode(m.overall).Some?
  {
    WiresDiffer();
    CodeOfStatusWire(m.overall);
  }

  /** With an older daemon they agree exactly when, besides, no metrics were lost. */
  lemma {:induction false} LegacyEventAgrees(m: Manifest)
    ensures ParseTerminal(LegacyEvent(m)) == TerminalOutcome(m) <==> !m.metricsFailed && TerminalExitCode(m.overall).Some?
  {
    WiresDiffer();
    CodeOfStatusWire(m.overall);
  }

  /* ---- The event loop ---- */

  /** What the channel has at one poll of the loop. */
  datatype Ready = Nothing | Message(n: Notification) | Closed

  /** The loop is polled at some instants; the timeout is looked at first. */
  datatype Poll = Poll(now: nat, ready: Ready)

  datatype LoopEnd = Outcome(t: Terminal) | TimedOut | Disconnected | StillWaiting

  predicate DeadlinePassed(deadline: Option<nat>, now: nat) {
    deadline.Some? && now >= deadline.value
  }

  /** What one poll decides, if it decides anything. */
  function Decides(p: Poll, deadline: Option<nat>): Option<LoopEnd> {
    if DeadlinePassed(deadline, p.now) then Some(TimedOut)
    else match p.ready
         case Nothing => None
         case Closed => Some(Disconnected)
         case Message(n) => match ParseTerminal(n) case Some(t) => Some(Outcome(t)) case None => None
  }

  /** The end of the loop, and the poll that brought it. */
  method EventLoop(polls: seq<Poll>, deadline: Option<nat>) returns (end: LoopEnd, at: nat)
    ensures end == StillWaiting <==> forall k :: 0 <= k < |polls| ==> Decides(polls[k], deadline).None?
    ensures end != StillWaiting ==> at < |polls| && Decides(polls[at], deadline) == Some(end)
                                    && forall k :: 0 <= k < at ==> Decides(polls[k], deadline).None?
  {
    at := 0;
    while at < |polls|
      invariant at <= |polls| && forall k :: 0 <= k < at ==> Decides(polls[k], deadline).None?
    {
      if DeadlinePassed(deadline, polls[at].now) {
        return TimedOut, at;
      }
      match polls[at].ready {
        case Nothing =>
        case Closed =>
          return Disconnected, at;
        case Message(n) =>
          match ParseTerminal(n)
          case Some(t) =>
            return Outcome(t), at;
          case None =>
      }
      at := at + 1;
    }
    end := StillWaiting;
  }

  /* ---- After a disconnect ---- */

  datatype Fallback = FoundTerminal(t: Terminal) | NonTerminal | Unavailable

  /** No manifest could be had; something else than one was answered; or the manifest. */
  datatype Answer = NoAnswer | OtherAnswer | Answered(m: Manifest)

  /** What the daemon and the manifest file answer at one round of polling. */
  datatype Round = Round(now: nat, daemon: Answer, file: Answer)

  const GRACE: nat := 2000

  function Judge(a: Answer): Fallback {
    match a
    case NoAnswer => Unavailable
    case OtherAnswer => NonTerminal
    case Answered(m) => match TerminalOutcome(m) case Some(t) => FoundTerminal(t) case None => NonTerminal
  }

  function PollOnce(r: Round): Fallback {
    var daemon, file := Judge(r.daemon), Judge(r.file);
    if daemon.FoundTerminal? then daemon
    else if file.FoundTerminal? then file
    else if daemon.NonTerminal? || file.NonTerminal? then NonTerminal
    else Unavailable
  }

  /** Rounds go on until one finds a terminal manifest or is not before the deadline; there is always one. */
  method PollAfterDisconnect(start: nat, rounds: seq<Round>, deadline: Option<nat>) returns (found: Option<Fallback>, at: nat)
    ensures var until := if deadline.Some? then deadline.value else start + GRACE;
            && (found.None? <==> forall k :: 0 <= k < |rounds| ==> !PollOnce(rounds[k]).FoundTerminal? && rounds[k].now < until)
            && (found.Some? ==> at < |rounds| && found.value == PollOnce(rounds[at])
                                && (found.value.FoundTerminal? || rounds[at].now >= until)
                                && forall k :: 0 <= k < at ==> !PollOnce(rounds[k]).FoundTerminal? && rounds[k].now < until)
  {
    var until := if deadline.Some? then deadline.value else start + GRACE;
    at := 0;
    while at < |rounds|
      invariant at <= |rounds|
      invariant forall k :: 0 <= k < at ==> !PollOnce(rounds[k]).FoundTerminal? && rounds[k].now < until
    {
      var once := PollOnce(rounds[at]);
      if once.FoundTerminal? {
        return Some(once), at;
      }
      if rounds[at].now >= until {
        return Some(once), at;
      }
      at := at + 1;
    }
    found := None;
  }

  function FallbackCode(f: Fallback, deadline: Option<nat>): nat {
    match f
    case FoundTerminal(t) => t.code
    case NonTerminal => if deadline.Some? then WAIT_TIMEOUT else DAEMON_DISCONNECTED
    case Unavailable => DAEMON_DISCONNECTED
  }

  /* ---- The whole wait ---- */

  /** What the client meets: whether it can subscribe, the snapshots it gets then, the polls of the event
      loop, and the rounds after a disconnect, which start at `lost`. */
  datatype Env = Env(subscribed: bool, snapshots: seq<Manifest>, polls: seq<Poll>, lost: nat, rounds: seq<Round>)

  /** Snapshot k is the first one of the feature. */
  predicate IsFirst(snapshots: seq<Manifest>, featureId: string, k: int) {
    0 <= k < |snapshots| && snapshots[k].featureId == featureId && forall i :: 0 <= i < k ==> snapshots[i].featureId != featureId
  }

  function SnapshotOf(snapshots: seq<Manifest>, featureId: string): (r: Option<Manifest>)
    ensures r.Some? ==> exists k :: 0 <= k < |snapshots| && snapshots[k] == r.value && IsFirst(snapshots, featureId, k)
    ensures r.None? ==> forall k :: 0 <= k < |snapshots| ==> snapshots[k].featureId != featureId
  {
    if snapshots == [] then None
    else if snapshots[0].featureId == featureId then Some(snapshots[0])
    else SnapshotOf(snapshots[1..], featureId)
  }

  function SnapshotOutcome(e: Env, featureId: string): Option<Terminal> {
    match SnapshotOf(e.snapshots, featureId) case Some(m) => TerminalOutcome(m) case None => None
  }

  /** Where an exit code came from. */
  datatype Why =
    | BySnapshot(t: Terminal)
    | ByEvent(at: nat, t: Terminal)
    | ByTimeout(at: nat)
    | ByRound(at: nat, found: Fallback)

  /** The reason is the one the client has to act on: nothing before it was decisive. */
  ghost predicate Explains(e: Env, featureId: string, deadline: Option<nat>, why: Why) {
    var waited := e.subscribed && SnapshotOutcome(e, featureId).None?;
    match why
    case BySnapshot(t) => e.subscribed && SnapshotOutcome(e, featureId) == Some(t)
    case ByEvent(k, t) =>
      waited && k < |e.polls| && Decides(e.polls[k], deadline) == Some(Outcome(t)) && Quiet(e.polls, deadline, k)
    case ByTimeout(k) => waited && k < |e.polls| && DeadlinePassed(deadline, e.polls[k].now) && Quiet(e.polls, deadline, k)
    case ByRound(k, f) =>
      && (e.subscribed ==> waited && exists i :: LostAt(e, deadline, i))
      && k < |e.rounds| && f == PollOnce(e.rounds[k])
      && (f.FoundTerminal? || e.rounds[k].now >= Until(e, deadline))
      && forall i :: 0 <= i < k ==> !PollOnce(e.rounds[i]).FoundTerminal? && e.rounds[i].now < Until(e, deadline)
  }

  /** The stream was closed at poll i. */
  predicate LostAt(e: Env, deadline: Option<nat>, i: int) {
    0 <= i < |e.polls| && Decides(e.polls[i], deadline) == Some(Disconnected) && Quiet(e.polls, deadline, i)
  }

  predicate Quiet(polls: seq<Poll>, deadline: Option<nat>, n: nat)
    requires n <= |polls|
  {
    forall k :: 0 <= k < n ==> Decides(polls[k], deadline).None?
  }

  function Until(e: Env, deadline: Option<nat>): nat {
    if deadline.Some? then deadline.value else e.lost + GRACE
  }

  function CodeOf(why: Why, deadline: Option<nat>): nat {
    match why
    case BySnapshot(t) => t.code
    case ByEvent(_, t) => t.code
    case ByTimeout(_) => WAIT_TIMEOUT
    case ByRound(_, f) => FallbackCode(f, deadline)
  }

  /** What the client met ends the wait for one reason at most. */
  lemma {:induction false} OneReason(e: Env, featureId: string, deadline: Option<nat>, a: Why, b: Why)
    requires Explains(e, featureId, deadline, a) && Explains(e, featureId, deadline, b)
    ensures a == b
  {
    if a.ByEvent? || a.ByTimeout? {
      assert Decides(e.polls[a.at], deadline).Some?;
    }
    if b.ByEvent? || b.ByTimeout? {
      assert Decides(e.polls[b.at], deadline).Some?;
    }
    if a.ByRound? && e.subscribed {
      var i :| LostAt(e, deadline, i);
    }
    if b.ByRound? && e.subscribed {
      var i :| LostAt(e, deadline, i);
    }
  }

  /* ---- What the exit codes mean ---- */

  /** The manifest shows an end of the feature, which this code stands for. */
  predicate Shows(m: Manifest, code: nat) {
    if m.metricsFailed then code == 1
    else (code == 0 && m.overall == Passed) || (code == 2 && (m.overall == Failed || m.overall == FailedInterrupted))
         || (code == 3 && m.overall == PendingReview)
  }

  predicate ShowsEnd(m: Manifest) {
    m.metricsFailed || (m.overall != Pending && m.overall != InProgress && m.overall != Queued)
  }

  predicate AnswersEnd(a: Answer) {
    a.Answered? && ShowsEnd(a.m)
  }

  predicate AnswerShows(a: Answer, code: nat) {
    a.Answered? && Shows(a.m, code)
  }

  /** The daemon's manifest comes before the file. */
  predicate RoundShows(r: Round, code: nat) {
    AnswerShows(r.daemon, code) || (!AnswersEnd(r.daemon) && AnswerShows(r.file, code))
  }

  predicate RoundEnds(r: Round) {
    AnswersEnd(r.daemon) || AnswersEnd(r.file)
  }

  predicate RoundSilent(r: Round) {
    r.daemon.NoAnswer? && r.file.NoAnswer?
  }

  /** The event ends the feature: what it says first, of exit status, overall status and status, is the word, and
      only three words do not stand for a failure. */
  predicate EventShows(n: Notification, code: nat) {
    match n.event
    case Some(Cancelled) => code == 2
    case Some(FeatureComplete(exit, overall, status)) =>
      var word := if !exit.Absent? then exit else if !overall.Absent? then overall else status;
      if word == Text("passed") then code == 0
      else if word == Text("metrics-persist-failed") then code == 1
      else if word == Text("pending-review") then code == 3
      else code == 2
    case _ => false
  }

  /** The client waits for events: its snapshot, if it has one, shows no end. */
  ghost predicate Waits(e: Env, featureId: string) {
    && e.subscribed
    && forall k :: IsFirst(e.snapshots, featureId, k) ==> !ShowsEnd(e.snapshots[k])
  }

  /** There was no connection, or it was lost while waiting. */
  ghost predicate Unconnected(e: Env, featureId: string, deadline: Option<nat>) {
    e.subscribed ==> Waits(e, featureId) && exists i :: LostAt(e, deadline, i)
  }

  /** Round k takes place: no round before it found an end or was the last one. */
  predicate TakesPlace(e: Env, deadline: Option<nat>, k: int) {
    && 0 <= k < |e.rounds|
    && forall i :: 0 <= i < k ==> !RoundEnds(e.rounds[i]) && e.rounds[i].now < Until(e, deadline)
  }

  /** The end of the feature was seen, with this code: in its snapshot, */
  ghost predicate SeenInSnapshot(e: Env, featureId: string, code: nat) {
    e.subscribed && exists k :: IsFirst(e.snapshots, featureId, k) && Shows(e.snapshots[k], code)
  }

  /** in the event of poll k, which is the first poll to decide anything, */
  ghost predicate SeenInPoll(e: Env, featureId: string, deadline: Option<nat>, k: int, code: nat) {
    && Waits(e, featureId) && 0 <= k < |e.polls| && Quiet(e.polls, deadline, k)
    && !DeadlinePassed(deadline, e.polls[k].now)
    && e.polls[k].ready.Message? && EventShows(e.polls[k].ready.n, code)
  }

  /** or in round k. */
  ghost predicate SeenInRound(e: Env, featureId: string, deadline: Option<nat>, k: int, code: nat) {
    Unconnected(e, featureId, deadline) && TakesPlace(e, deadline, k) && RoundShows(e.rounds[k], code)
  }

  /** The deadline had passed at poll k, before which nothing was decided, */
  ghost predicate LateInPoll(e: Env, featureId: string, deadline: Option<nat>, k: int) {
    && Waits(e, featureId) && 0 <= k < |e.polls| && Quiet(e.polls, deadline, k)
    && DeadlinePassed(deadline, e.polls[k].now)
  }

  /** or in round k, where something answered but showed no end. */
  ghost predicate LateInRound(e: Env, featureId: string, deadline: Option<nat>, k: int) {
    && Unconnected(e, featureId, deadline) && TakesPlace(e, deadline, k)
    && DeadlinePassed(deadline, e.rounds[k].now) && !RoundEnds(e.rounds[k]) && !RoundSilent(e.rounds[k])
  }

  /** Round k was the last one, and nothing answered, or nothing that shows an end while there was no deadline. */
  ghost predicate LostInRound(e: Env, featureId: string, deadline: Option<nat>, k: int) {
    && Unconnected(e, featureId, deadline) && TakesPlace(e, deadline, k)
    && e.rounds[k].now >= Until(e, deadline)
    && (RoundSilent(e.rounds[k]) || (!RoundEnds(e.rounds[k]) && deadline.None?))
  }

  ghost predicate Seen(e: Env, featureId: string, deadline: Option<nat>, code: nat) {
    || SeenInSnapshot(e, featureId, code)
    || (exists k :: SeenInPoll(e, featureId, deadline, k, code))
    || (exists k :: SeenInRound(e, featureId, deadline, k, code))
  }

  /** All exit codes, told without reasons. */
  ghost predicate CodeMeans(e: Env, featureId: string, deadline: Option<nat>, code: Option<nat>) {
    && (forall c: nat :: c <= 3 ==> (code == Some(c) <==> Seen(e, featureId, deadline, c)))
    && (code == Some(4) <==>
          (exists k :: LateInPoll(e, featureId, deadline, k)) || (exists k :: LateInRound(e, featureId, deadline, k)))
    && (code == Some(5) <==> exists k :: LostInRound(e, featureId, deadline, k))
    && (code.Some? ==> code.value <= 5)
  }

  lemma {:induction false} OutcomeShows(m: Manifest, code: nat)
    ensures TerminalOutcome(m).Some? <==> ShowsEnd(m)
    ensures Shows(m, code) <==> TerminalOutcome(m).Some? && TerminalOutcome(m).value.code == code
    ensures Shows(m, code) ==> code <= 3
  {
  }

  lemma {:induction false} ParsedShows(n: Notification, code: nat)
    ensures EventShows(n, code) <==> ParseTerminal(n).Some? && ParseTerminal(n).value.code == code
    ensures EventShows(n, code) ==> code <= 3
  {
    WiresDiffer();
  }

  lemma {:induction false} PolledShows(r: Round, code: nat)
    ensures PollOnce(r).FoundTerminal? <==> RoundEnds(r)
    ensures PollOnce(r) == Unavailable <==> RoundSilent(r)
    ensures RoundShows(r, code) <==> PollOnce(r).FoundTerminal? && PollOnce(r).t.code == code
    ensures RoundShows(r, code) ==> code <= 3
  {
    if r.daemon.Answered? {
      OutcomeShows(r.daemon.m, code);
    }
    if r.file.Answered? {
      OutcomeShows(r.file.m, code);
    }
  }

  lemma {:induction false} SnapshotShows(e: Env, featureId: string, code: nat)
    ensures e.subscribed ==> (SnapshotOutcome(e, featureId).None? <==> Waits(e, featureId))
    ensures SeenInSnapshot(e, featureId, code) <==>
              e.subscribed && SnapshotOutcome(e, featureId).Some? && SnapshotOutcome(e, featureId).value.code == code
  {
    var found := SnapshotOf(e.snapshots, featureId);
    if found.Some? {
      var k :| 0 <= k < |e.snapshots| && e.snapshots[k] == found.value && IsFirst(e.snapshots, featureId, k);
      assert forall i :: IsFirst(e.snapshots, featureId, i) ==> i == k;
      OutcomeShows(found.value, code);
    }
  }

  lemma {:induction false} PlaceTaken(e: Env, deadline: Option<nat>, k: nat)
    requires k < |e.rounds|
    ensures TakesPlace(e, deadline, k) <==>
            forall i :: 0 <= i < k ==> !PollOnce(e.rounds[i]).FoundTerminal? && e.rounds[i].now < Until(e, deadline)
  {
    forall i | 0 <= i < k ensures PollOnce(e.rounds[i]).FoundTerminal? <==> RoundEnds(e.rounds[i]) {
      PolledShows(e.rounds[i], 0);
    }
  }

  /** What the reason saw. */
  ghost predicate ReasonSees(e: Env, featureId: string, deadline: Option<nat>, why: Why, code: nat) {
    match why
    case BySnapshot(_) => SeenInSnapshot(e, featureId, code)
    case ByEvent(k, _) => SeenInPoll(e, featureId, deadline, k, code)
    case ByTimeout(_) => false
    case ByRound(k, _) => SeenInRound(e, featureId, deadline, k, code)
  }

  lemma {:induction false} ReasonTells(e: Env, featureId: string, deadline: Option<nat>, why: Why)
    requires Explains(e, featureId, deadline, why)
    ensures CodeOf(why, deadline) <= 3 ==> ReasonSees(e, featureId, deadline, why, CodeOf(why, deadline))
    ensures CodeOf(why, deadline) == WAIT_TIMEOUT ==>
              match why
              case ByTimeout(k) => LateInPoll(e, featureId, deadline, k)
              case ByRound(k, _) => LateInRound(e, featureId, deadline, k)
              case _ => false
    ensures CodeOf(why, deadline) == DAEMON_DISCONNECTED ==> why.ByRound? && LostInRound(e, featureId, deadline, why.at)
    ensures CodeOf(why, deadline) <= DAEMON_DISCONNECTED
  {
    var code := CodeOf(why, deadline);
    SnapshotShows(e, featureId, code);
    match why {
      case BySnapshot(_) => OutcomeShows(SnapshotOf(e.snapshots, featureId).value, code);
      case ByEvent(k, _) => ParsedShows(e.polls[k].ready.n, code);
      case ByTimeout(_) =>
      case ByRound(k, _) =>
        PlaceTaken(e, deadline, k);
        PolledShows(e.rounds[k], code);
    }
  }

  lemma {:induction false} PollTells(e: Env, featureId: string, deadline: Option<nat>, k: int, code: nat)
    ensures SeenInPoll(e, featureId, deadline, k, code) ==>
              var t := ParseTerminal(e.polls[k].ready.n).value;
              Explains(e, featureId, deadline, ByEvent(k, t)) && t.code == code
    ensures LateInPoll(e, featureId, deadline, k) ==> Explains(e, featureId, deadline, ByTimeout(k))
  {
    SnapshotShows(e, featureId, code);
    if SeenInPoll(e, featureId, deadline, k, code) {
      ParsedShows(e.polls[k].ready.n, code);
    }
  }

  lemma {:induction false} RoundTells(e: Env, featureId: string, deadline: Option<nat>, k: int, code: nat)
    ensures SeenInRound(e, featureId, deadline, k, code) ==>
              var found := PollOnce(e.rounds[k]);
              Explains(e, featureId, deadline, ByRound(k, found)) && CodeOf(ByRound(k, found), deadline) == code
    ensures LateInRound(e, featureId, deadline, k) ==>
              var found := PollOnce(e.rounds[k]);
              Explains(e, featureId, deadline, ByRound(k, found)) && CodeOf(ByRound(k, found), deadline) == WAIT_TIMEOUT
    ensures LostInRound(e, featureId, deadline, k) ==>
              var found := PollOnce(e.rounds[k]);
              Explains(e, featureId, deadline, ByRound(k, found)) && CodeOf(ByRound(k, found), deadline) == DAEMON_DISCONNECTED
  {
    SnapshotShows(e, featureId, code);
    if 0 <= k < |e.rounds| {
      PlaceTaken(e, deadline, k);
      PolledShows(e.rounds[k], code);
    }
  }

  lemma {:induction false} SeenTells(e: Env, featureId: string, deadline: Option<nat>, code: nat)
    ensures Seen(e, featureId, deadline, code) ==>
              exists why :: Explains(e, featureId, deadline, why) && CodeOf(why, deadline) == code
  {
    SnapshotShows(e, featureId, code);
    if SeenInSnapshot(e, featureId, code) {
      assert Explains(e, featureId, deadline, BySnapshot(SnapshotOutcome(e, featureId).value));
    }
    if k :| SeenInPoll(e, featureId, deadline, k, code) {
      PollTells(e, featureId, deadline, k, code);
    }
    if k :| SeenInRound(e, featureId, deadline, k, code) {
      RoundTells(e, featureId, deadline, k, code);
    }
  }

  lemma {:induction false} LateTells(e: Env, featureId: string, deadline: Option<nat>)
    ensures (exists k :: LateInPoll(e, featureId, deadline, k)) || (exists k :: LateInRound(e, featureId, deadline, k)) ==>
              exists why :: Explains(e, featureId, deadline, why) && CodeOf(why, deadline) == WAIT_TIMEOUT
    ensures (exists k :: LostInRound(e, featureId, deadline, k)) ==>
              exists why :: Explains(e, featureId, deadline, why) && CodeOf(why, deadline) == DAEMON_DISCONNECTED
  {
    if k :| LateInPoll(e, featureId, deadline, k) {
      PollTells(e, featureId, deadline, k, 0);
    }
    if k :| LateInRound(e, featureId, deadline, k) {
      RoundTells(e, featureId, deadline, k, 0);
    }
    if k :| LostInRound(e, featureId, deadline, k) {
      RoundTells(e, featureId, deadline, k, 0);
    }
  }

  lemma {:induction false} CodeOfReason(e: Env, featureId: string, deadline: Option<nat>, why: Why)
    requires Explains(e, featureId, deadline, why)
    requires forall other :: Explains(e, featureId, deadline, other) ==> other == why
    ensures CodeMeans(e, featureId, deadline, Some(CodeOf(why, deadline)))
  {
    ReasonTells(e, featureId, deadline, why);
    LateTells(e, featureId, deadline);
    forall c: nat | c <= 3 ensures CodeOf(why, deadline) == c <==> Seen(e, featureId, deadline, c) {
      SeenTells(e, featureId, deadline, c);
    }
  }

  lemma {:induction false} NoReasonNoCode(e: Env, featureId: string, deadline: Option<nat>)
    requires forall why :: !Explains(e, featureId, deadline, why)
    ensures CodeMeans(e, featureId, deadline, None)
  {
    LateTells(e, featureId, deadline);
    forall c: nat | c <= 3 ensures !Seen(e, featureId, deadline, c) {
      SeenTells(e, featureId, deadline, c);
    }
  }

  /** The exit code of the wait, or none when what the client met does not end it yet. */
  method WaitUntilTerminal(e: Env, featureId: string, deadline: Option<nat>) returns (code: Option<nat>)
    ensures forall why :: Explains(e, featureId, deadline, why) ==> code == Some(CodeOf(why, deadline))
    ensures code.Some? ==> exists why :: Explains(e, featureId, deadline, why)
    ensures CodeMeans(e, featureId, deadline, code)
  {
    if e.subscribed {
      var snapshot := SnapshotOf(e.snapshots, featureId);
      if snapshot.Some? {
        var terminal := TerminalOutcome(snapshot.value);
        if terminal.Some? {
          code := Some(terminal.value.code);
          Concludes(e, featureId, deadline, BySnapshot(terminal.value));
          return;
        }
      }
      var end, at := EventLoop(e.polls, deadline);
      match end {
        case StillWaiting =>
          StillOpen(e, featureId, deadline);
          return None;
        case Outcome(t) =>
          Concludes(e, featureId, deadline, ByEvent(at, t));
          return Some(t.code);
        case TimedOut =>
          Concludes(e, featureId, deadline, ByTimeout(at));
          return Some(WAIT_TIMEOUT);
        case Disconnected =>
          assert LostAt(e, deadline, at);
      }
    }
    var found, at := PollAfterDisconnect(e.lost, e.rounds, deadline);
    if found.None? {
      RoundsOpen(e, featureId, deadline);
      return None;
    }
    Concludes(e, featureId, deadline, ByRound(at, found.value));
    code := Some(FallbackCode(found.value, deadline));
  }

  lemma {:induction false} Concludes(e: Env, featureId: string, deadline: Option<nat>, why: Why)
    requires Explains(e, featureId, deadline, why)
    ensures Explains(e, featureId, deadline, why)
    ensures forall other :: Explains(e, featureId, deadline, other) ==> other == why
    ensures CodeMeans(e, featureId, deadline, Some(CodeOf(why, deadline)))
  {
    forall other | Explains(e, featureId, deadline, other) ensures other == why {
      OneReason(e, featureId, deadline, other, why);
    }
    CodeOfReason(e, featureId, deadline, why);
  }

  lemma {:induction false} StillOpen(e: Env, featureId: string, deadline: Option<nat>)
    requires e.subscribed && SnapshotOutcome(e, featureId).None?
    requires forall k :: 0 <= k < |e.polls| ==> Decides(e.polls[k], deadline).None?
    ensures forall why :: !Explains(e, featureId, deadline, why)
    ensures CodeMeans(e, featureId, deadline, None)
  {
    forall why ensures !Explains(e, featureId, deadline, why) {
      assert forall i :: !LostAt(e, deadline, i);
    }
    NoReasonNoCode(e, featureId, deadline);
  }

  lemma {:induction false} RoundsOpen(e: Env, featureId: string, deadline: Option<nat>)
    requires e.subscribed ==> SnapshotOutcome(e, featureId).None? && exists i :: LostAt(e, deadline, i)
    requires forall k :: 0 <= k < |e.rounds| ==> !PollOnce(e.rounds[k]).FoundTerminal? && e.rounds[k].now < Until(e, deadline)
    ensures forall why :: !Explains(e, featureId, deadline, why)
    ensures CodeMeans(e, featureId, deadline, None)
  {
    forall why ensures !Explains(e, featureId, deadline, why) {
      if e.subscribed {
        var i :| LostAt(e, deadline, i);
        forall k: nat | k < |e.polls| && Quiet(e.polls, deadline, k) && Decides(e.polls[k], deadline).Some? ensures k == i {
          assert Decides(e.polls[i], deadline).Some?;
        }
      }
    }
    NoReasonNoCode(e, featureId, deadline);
  }

  /** A terminal manifest in the first round, of the daemon or the file, wins even over a deadline that has
      long passed, whether the client never got a connection or lost it. */
  lemma {:induction false} FirstRoundAlwaysLooked(e: Env, featureId: string, deadline: Option<nat>, t: Terminal)
    requires Unconnected(e, featureId, deadline)
    requires e.rounds != [] && PollOnce(e.rounds[0]) == FoundTerminal(t)
    ensures forall why :: Explains(e, featureId, deadline, why) <==> why == ByRound(0, FoundTerminal(t))
  {
    var first := ByRound(0, FoundTerminal(t));
    assert Explains(e, featureId, deadline, first);
    Concludes(e, featureId, deadline, first);
  }
}
