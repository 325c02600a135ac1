/** Adversarial divergence-triggered scaling: the escalation ladder for two disagreeing evaluators. */
module Escalation {
  import opened Common
  import opened AdaptiveTypes

  type PairedScore = (real, real)

  datatype AdtsConfig = AdtsConfig(divergenceThreshold: real, maxDivergenceEscalations: u32)

  datatype AdtsVerdict =
    | Continue
    | ScheduleExtraPassFreshContext
    | ScheduleExtraPassElevatedEffort
    | EscalationExhausted

  predicate ValidScore(s: real) {
    0.0 <= s <= 10.0
  }

  predicate ValidPair(pair: PairedScore) {
    ValidScore(pair.0) && ValidScore(pair.1)
  }

  /** The first pair with a score outside [0, 10]: every pair is checked, not just the latest. */
  function FirstInvalid(pairs: seq<PairedScore>): Option<PairedScore> {
    if pairs == [] then None
    else if !ValidPair(pairs[0]) then Some(pairs[0])
    else FirstInvalid(pairs[1..])
  }

  /** A stale bad score surfaces wherever it sits: the reported pair is the first invalid one. */
  lemma {:induction false} InvalidScoreSurfaces(pairs: seq<PairedScore>, i: nat)
    requires i < |pairs| && !ValidPair(pairs[i]) && (forall j :: 0 <= j < i ==> ValidPair(pairs[j]))
    ensures FirstInvalid(pairs) == Some(pairs[i])
  {
    if 0 < i {
      InvalidScoreSurfaces(pairs[1..], i - 1);
    }
  }

  function Gap(pair: PairedScore): real {
    if pair.0 < pair.1 then pair.1 - pair.0 else pair.0 - pair.1
  }

  function RunAdts(pairs: seq<PairedScore>, escalationsUsed: u32, cfg: AdtsConfig): Result<AdtsVerdict, AdaptiveError> {
    if !(0.0 <= cfg.divergenceThreshold <= 10.0) then Err(InvalidDivergenceThreshold(cfg.divergenceThreshold))
    else
      match FirstInvalid(pairs)
      case Some(bad) => Err(InvalidAdtsScore(bad.0, bad.1))
      case None =>
        if pairs == [] then Ok(Continue)
        else if Gap(pairs[|pairs| - 1]) <= cfg.divergenceThreshold then Ok(Continue)
        else if escalationsUsed >= cfg.maxDivergenceEscalations then Ok(EscalationExhausted)
        else if escalationsUsed == 0 then Ok(ScheduleExtraPassFreshContext)
        else if escalationsUsed == 1 then Ok(ScheduleExtraPassElevatedEffort)
        else Ok(EscalationExhausted)
  }

  /* ---- The ladder over a whole run ---- */

  /** The only verdicts other than Continue that a run can produce, in order. */
  function LadderOf(max: nat): seq<AdtsVerdict> {
    if max == 0 then [EscalationExhausted]
    else if max == 1 then [ScheduleExtraPassFreshContext, EscalationExhausted]
    else [ScheduleExtraPassFreshContext, ScheduleExtraPassElevatedEffort, EscalationExhausted]
  }

  /** One evaluator, whichever, scored more than the threshold above the other. */
  predicate Apart(pair: PairedScore, threshold: real) {
    pair.0 > pair.1 + threshold || pair.1 > pair.0 + threshold
  }

  predicate Diverges(pairs: seq<PairedScore>, cfg: AdtsConfig) {
    pairs != [] && Apart(pairs[|pairs| - 1], cfg.divergenceThreshold)
  }

  predicate ValidInput(pairs: seq<PairedScore>, cfg: AdtsConfig) {
    0.0 <= cfg.divergenceThreshold <= 10.0 && FirstInvalid(pairs).None?
  }

  lemma {:induction false} NoneInvalid(pairs: seq<PairedScore>)
    ensures FirstInvalid(pairs).None? <==> forall i :: 0 <= i < |pairs| ==> 0.0 <= pairs[i].0 <= 10.0 && 0.0 <= pairs[i].1 <= 10.0
  {
    if pairs != [] {
      NoneInvalid(pairs[1..]);
      assert forall i :: 0 < i < |pairs| ==> pairs[i] == pairs[1..][i - 1];
    }
  }

  /** The verdict is an error exactly when the threshold or some score lies outside [0, 10], and otherwise
      Continue exactly when the two latest scores are at most the threshold apart, in either direction. */
  lemma {:induction false} ContinuesExactly(pairs: seq<PairedScore>, used: u32, cfg: AdtsConfig)
    requires pairs != []
    ensures var (a, b), t := pairs[|pairs| - 1], cfg.divergenceThreshold;
            && (RunAdts(pairs, used, cfg).Ok? <==>
                  0.0 <= t <= 10.0 && forall i :: 0 <= i < |pairs| ==> 0.0 <= pairs[i].0 <= 10.0 && 0.0 <= pairs[i].1 <= 10.0)
            && (RunAdts(pairs, used, cfg).Ok? ==> (RunAdts(pairs, used, cfg).value == Continue <==> -t <= a - b <= t))
  {
    NoneInvalid(pairs);
  }

  function Swapped(pairs: seq<PairedScore>): (r: seq<PairedScore>)
    ensures |r| == |pairs| && forall i :: 0 <= i < |r| ==> r[i] == (pairs[i].1, pairs[i].0)
  {
    seq(|pairs|, i requires 0 <= i < |pairs| => (pairs[i].1, pairs[i].0))
  }

  /** Which evaluator gave which score makes no difference. */
  lemma {:induction false} EvaluatorsAreAlike(pairs: seq<PairedScore>, used: u32, cfg: AdtsConfig)
    ensures RunAdts(Swapped(pairs), used, cfg).Ok? <==> RunAdts(pairs, used, cfg).Ok?
    ensures RunAdts(pairs, used, cfg).Ok? ==> RunAdts(Swapped(pairs), used, cfg) == RunAdts(pairs, used, cfg)
  {
    NoneInvalid(pairs);
    NoneInvalid(Swapped(pairs));
  }

  /** A verdict is Continue, or the rung that the escalations so far point at. */
  lemma {:induction false} VerdictIsNextRung(pairs: seq<PairedScore>, used: u32, cfg: AdtsConfig)
    requires used < |LadderOf(cfg.maxDivergenceEscalations)|
    ensures RunAdts(pairs, used, cfg).Ok? <==> ValidInput(pairs, cfg)
    ensures ValidInput(pairs, cfg) ==>
              RunAdts(pairs, used, cfg).value ==
              if Diverges(pairs, cfg) then LadderOf(cfg.maxDivergenceEscalations)[used] else Continue
  {
  }

  /** A caller's run: one call per pass, one more escalation used after each schedule verdict, and
      no further call after exhaustion or an error. The result drops the Continue verdicts. */
  function Escalations(calls: seq<seq<PairedScore>>, used: u32, cfg: AdtsConfig): seq<AdtsVerdict>
    requires used < |LadderOf(cfg.maxDivergenceEscalations)|
  {
    if calls == [] then []
    else
      match RunAdts(calls[0], used, cfg)
      case Err(_) => []
      case Ok(Continue) => Escalations(calls[1..], used, cfg)
      case Ok(EscalationExhausted) => [EscalationExhausted]
      case Ok(schedule) => VerdictIsNextRung(calls[0], used, cfg); [schedule] + Escalations(calls[1..], used + 1, cfg)
  }

  /** Whatever the scores, a run climbs the ladder one rung at a time and never skips or repeats. */
  lemma {:induction false} RunClimbsLadder(calls: seq<seq<PairedScore>>, used: u32, cfg: AdtsConfig)
    requires used < |LadderOf(cfg.maxDivergenceEscalations)|
    ensures Escalations(calls, used, cfg) <= LadderOf(cfg.maxDivergenceEscalations)[used..]
  {
    if calls != [] {
      VerdictIsNextRung(calls[0], used, cfg);
      var ladder := LadderOf(cfg.maxDivergenceEscalations);
      match RunAdts(calls[0], used, cfg) {
        case Err(_) =>
        case Ok(Continue) => RunClimbsLadder(calls[1..], used, cfg);
        case Ok(EscalationExhausted) => assert ladder[used..][0] == EscalationExhausted;
        case Ok(schedule) =>
          RunClimbsLadder(calls[1..], used + 1, cfg);
          assert ladder[used..] == [ladder[used]] + ladder[used + 1..];
      }
    }
  }

  /** The run exhausts exactly when it has diverged more often than min(2, max) times. */
  lemma {:induction false} RunExhaustsOnExtraDivergence(calls: seq<seq<PairedScore>>, used: u32, cfg: AdtsConfig)
    requires used < |LadderOf(cfg.maxDivergenceEscalations)|
    requires forall i :: 0 <= i < |calls| ==> ValidInput(calls[i], cfg)
    ensures EscalationExhausted in Escalations(calls, used, cfg) <==>
            used + Divergences(calls, cfg) >= |LadderOf(cfg.maxDivergenceEscalations)|
  {
    if calls != [] {
      VerdictIsNextRung(calls[0], used, cfg);
      match RunAdts(calls[0], used, cfg) {
        case Ok(EscalationExhausted) =>
        case Ok(Continue) => RunExhaustsOnExtraDivergence(calls[1..], used, cfg);
        case Ok(schedule) => RunExhaustsOnExtraDivergence(calls[1..], used + 1, cfg);
      }
    }
  }

  function Divergences(calls: seq<seq<PairedScore>>, cfg: AdtsConfig): nat {
    if calls == [] then 0 else (if Diverges(calls[0], cfg) then 1 else 0) + Divergences(calls[1..], cfg)
  }
}
