/** The sleep and notify protocol of the test clock, as steps of any number of sleepers and advancers. */
module MockClock {

  /** Where a sleeper stands in its loop. `Waiting` holds the count of notifications there had been when the
      waiter was made; it is woken by the next one, whether or not it was already being awaited. */
  datatype SleeperAt =
    | FirstCheck
    | MakeWaiter
    | SecondCheck(seen: nat)
    | Waiting(seen: nat)
    | Returned(read: int)

  datatype Sleeper = Sleeper(target: int, at: SleeperAt)

  /** An advancer writes the clock under its lock and notifies afterwards. */
  datatype AdvancerAt = Idle | Written

  datatype State = State(now: int, notified: nat, sleepers: seq<Sleeper>, advancers: seq<AdvancerAt>)

  datatype Step =
    | AdvanceBy(advancer: nat, duration: int)
    | SetTo(advancer: nat, time: int)
    | Notify(advancer: nat)
    | Move(sleeper: nat)

  function AfterCheck(s: State, target: int, otherwise: SleeperAt): SleeperAt {
    if s.now >= target then Returned(s.now) else otherwise
  }

  function NextAt(s: State, sl: Sleeper): SleeperAt {
    match sl.at
    case FirstCheck => AfterCheck(s, sl.target, MakeWaiter)
    case MakeWaiter => SecondCheck(s.notified)
    case SecondCheck(seen) => AfterCheck(s, sl.target, Waiting(seen))
    case Waiting(seen) => if s.notified > seen then FirstCheck else sl.at
    case Returned(_) => sl.at
  }

  /** One atomic step; a step that is not possible leaves the state as it is. */
  function Apply(s: State, step: Step): State {
    match step
    case AdvanceBy(a, d) =>
      if a < |s.advancers| && s.advancers[a].Idle? then s.(now := s.now + d, advancers := s.advancers[a := Written]) else s
    case SetTo(a, t) =>
      if a < |s.advancers| && s.advancers[a].Idle? then s.(now := t, advancers := s.advancers[a := Written]) else s
    case Notify(a) =>
      if a < |s.advancers| && s.advancers[a].Written?
      then s.(notified := s.notified + 1, advancers := s.advancers[a := Idle]) else s
    case Move(i) =>
      if i < |s.sleepers| then s.(sleepers := s.sleepers[i := s.sleepers[i].(at := NextAt(s, s.sleepers[i]))]) else s
  }

  function Run(s: State, steps: seq<Step>): State
    decreases |steps|
  {
    if steps == [] then s else Run(Apply(s, steps[0]), steps[1..])
  }

  /** Sleepers have not started to sleep and nobody is advancing the clock. */
  predicate Initial(s: State) {
    && (forall i :: 0 <= i < |s.sleepers| ==> s.sleepers[i].at.FirstCheck?)
    && forall a :: 0 <= a < |s.advancers| ==> s.advancers[a].Idle?
  }

  predicate SomeoneWillNotify(s: State) {
    exists a :: 0 <= a < |s.advancers| && s.advancers[a].Written?
  }

  /** Asleep, not woken, although the time has come. */
  predicate Overslept(s: State, sl: Sleeper) {
    sl.at.Waiting? && sl.at.seen == s.notified && s.now >= sl.target
  }

  predicate SleeperOk(s: State, sl: Sleeper) {
    match sl.at
    case SecondCheck(seen) => seen <= s.notified
    case Waiting(seen) => seen <= s.notified && (Overslept(s, sl) ==> SomeoneWillNotify(s))
    case Returned(read) => read >= sl.target
    case _ => true
  }

  predicate Inv(s: State) {
    forall i :: 0 <= i < |s.sleepers| ==> SleeperOk(s, s.sleepers[i])
  }

  lemma {:induction false} StepKeepsInv(s: State, step: Step)
    requires Inv(s)
    ensures Inv(Apply(s, step))
  {
    var t := Apply(s, step);
    forall i | 0 <= i < |t.sleepers| ensures SleeperOk(t, t.sleepers[i]) {
      assert SleeperOk(s, s.sleepers[i]);
      match step
      case AdvanceBy(a, _) =>
        assert t != s ==> t.advancers[a].Written?;
      case SetTo(a, _) =>
        assert t != s ==> t.advancers[a].Written?;
      case _ =>
    }
  }

  lemma {:induction false} RunKeepsInv(s: State, steps: seq<Step>)
    requires Inv(s)
    ensures Inv(Run(s, steps))
    decreases |steps|
  {
    if steps != [] {
      StepKeepsInv(s, steps[0]);
      RunKeepsInv(Apply(s, steps[0]), steps[1..]);
    }
  }

  /** No lost wakeup: in every interleaving, once no advancer stands between its write and its notification,
      no sleeper whose time has come is left waiting un-notified. */
  lemma {:induction false} NoLostWakeup(s: State, steps: seq<Step>, i: nat)
    requires Initial(s) && i < |s.sleepers| && !SomeoneWillNotify(Run(s, steps))
    ensures |Run(s, steps).sleepers| == |s.sleepers| && !Overslept(Run(s, steps), Run(s, steps).sleepers[i])
  {
    RunKeepsInv(s, steps);
    RunKeepsTargets(s, steps, i);
    assert SleeperOk(Run(s, steps), Run(s, steps).sleepers[i]);
  }

  lemma {:induction false} RunKeepsTargets(s: State, steps: seq<Step>, i: nat)
    requires i < |s.sleepers|
    ensures |Run(s, steps).sleepers| == |s.sleepers| && Run(s, steps).sleepers[i].target == s.sleepers[i].target
    decreases |steps|
  {
    if steps != [] {
      RunKeepsTargets(Apply(s, steps[0]), steps[1..], i);
    }
  }

  /** A sleeper returns only on a time the clock really showed during the run, and no earlier than its target. */
  lemma {:induction false} ReturnsOnTimeRead(s: State, steps: seq<Step>, i: nat) returns (k: nat)
    requires Inv(s) && i < |s.sleepers| && !s.sleepers[i].at.Returned?
    requires |Run(s, steps).sleepers| == |s.sleepers| && Run(s, steps).sleepers[i].at.Returned?
    ensures k < |steps| && Run(s, steps[..k]).now == Run(s, steps).sleepers[i].at.read >= s.sleepers[i].target
    decreases |steps|
  {
    var t := Apply(s, steps[0]);
    if t.sleepers[i].at.Returned? {
      k := 0;
      assert Run(s, steps[..0]) == s;
      ReturnedStays(t, steps[1..], i);
    } else {
      StepKeepsInv(s, steps[0]);
      k := ReturnsOnTimeRead(t, steps[1..], i);
      assert steps[..k + 1][1..] == steps[1..][..k];
      k := k + 1;
    }
  }

  lemma {:induction false} ReturnedStays(s: State, steps: seq<Step>, i: nat)
    requires i < |s.sleepers| && s.sleepers[i].at.Returned?
    ensures i < |Run(s, steps).sleepers| && Run(s, steps).sleepers[i] == s.sleepers[i]
    decreases |steps|
  {
    if steps != [] {
      ReturnedStays(Apply(s, steps[0]), steps[1..], i);
    }
  }

  /* ---- Progress ---- */

  function OwnMoves(steps: seq<Step>, i: nat): nat {
    if steps == [] then 0 else (if steps[0] == Move(i) then 1 else 0) + OwnMoves(steps[1..], i)
  }

  /** The moves a sleeper still needs when its time has come and the clock is left alone. */
  function MovesLeft(s: State, sl: Sleeper): nat {
    match sl.at
    case FirstCheck => 1
    case MakeWaiter => 2
    case SecondCheck(_) => 1
    case Waiting(_) => 2
    case Returned(_) => 0
  }

  /** Once the time has come and the advancers are done, two moves of its own bring a sleeper back,
      however the moves of the other sleepers fall between. */
  lemma {:induction false} WakesInTwoMoves(s: State, steps: seq<Step>, i: nat)
    requires Inv(s) && i < |s.sleepers| && s.now >= s.sleepers[i].target && !SomeoneWillNotify(s)
    requires forall k :: 0 <= k < |steps| ==> steps[k].Move?
    requires OwnMoves(steps, i) >= MovesLeft(s, s.sleepers[i])
    ensures i < |Run(s, steps).sleepers| && Run(s, steps).sleepers[i].at.Returned?
    decreases |steps|
  {
    if steps != [] {
      assert SleeperOk(s, s.sleepers[i]);
      var t := Apply(s, steps[0]);
      StepKeepsInv(s, steps[0]);
      assert t.advancers == s.advancers;
      WakesInTwoMoves(t, steps[1..], i);
    }
  }

  /* ---- What the clock shows ---- */

  /** The total of the advances that take place in a run. */
  function Advanced(s: State, steps: seq<Step>): int
    decreases |steps|
  {
    if steps == [] then 0
    else
      (if steps[0].AdvanceBy? && steps[0].advancer < |s.advancers| && s.advancers[steps[0].advancer].Idle?
       then steps[0].duration else 0)
      + Advanced(Apply(s, steps[0]), steps[1..])
  }

  /** While nobody sets it, the clock shows where it started and all that it was advanced by. */
  lemma {:induction false} ClockShowsAdvances(s: State, steps: seq<Step>)
    requires forall k :: 0 <= k < |steps| ==> !steps[k].SetTo?
    ensures Run(s, steps).now == s.now + Advanced(s, steps)
    decreases |steps|
  {
    if steps != [] {
      ClockShowsAdvances(Apply(s, steps[0]), steps[1..]);
    }
  }

  /** A waiting sleeper is not busy: without a notification after its waiter was made it never moves, whatever the
      clock shows. */
  lemma {:induction false} SleepsUntilNotified(s: State, steps: seq<Step>, i: nat)
    requires i < |s.sleepers| && s.sleepers[i].at == Waiting(s.notified)
    requires forall k :: 0 <= k < |steps| ==> !steps[k].Notify?
    ensures i < |Run(s, steps).sleepers| && Run(s, steps).sleepers[i] == s.sleepers[i]
    decreases |steps|
  {
    if steps != [] {
      SleepsUntilNotified(Apply(s, steps[0]), steps[1..], i);
    }
  }

  /** A time that is set is shown at once, and owes a notification. */
  lemma {:induction false} SetShowsTime(s: State, a: nat, time: int)
    requires a < |s.advancers| && s.advancers[a].Idle?
    ensures var t := Apply(s, SetTo(a, time)); t.now == time && SomeoneWillNotify(t) && t.sleepers == s.sleepers
  {
    assert Apply(s, SetTo(a, time)).advancers[a].Written?;
  }

  /** A notification wakes every sleeper whose waiter was made before it. */
  lemma {:induction false} NotifyWakes(s: State, a: nat, i: nat)
    requires Inv(s) && a < |s.advancers| && s.advancers[a].Written?
    requires i < |s.sleepers| && s.sleepers[i].at.Waiting?
    ensures var t := Apply(s, Notify(a));
            t.advancers[a].Idle? && t.now == s.now && Apply(t, Move(i)).sleepers[i].at == FirstCheck
  {
    assert SleeperOk(s, s.sleepers[i]);
  }
}
