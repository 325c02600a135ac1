/** Review gates: their data, their ids, the words of the audit trail and the two timeout rules. */
module GateTypes {
  import opened Common

  datatype GateStatus = Pending | Approved | Rejected | Skipped | TimedOut

  datatype OnTimeout = TimeoutReject | TimeoutApprove | TimeoutSkip

  datatype GateDecision = Approve | Reject | Skip

  datatype Origin = Manual | Timeout

  datatype Outcome = Outcome(decision: GateDecision, origin: Origin)

  /** Times are milliseconds; `timeoutAt` is None when its text does not parse. */
  datatype Gate = Gate(
    id: string,
    layer: string,
    status: GateStatus,
    trigger: string,
    requestedAt: int,
    timeoutAt: Option<int>,
    onTimeout: OnTimeout,
    attemptsLeft: nat,
    decision: Option<string>,
    decidedAt: Option<int>)

  const HOUR_MS := 3_600_000

  /** The instant that a time written with whole seconds stands for. */
  function TruncateToSeconds(t: int): int {
    t / 1000 * 1000
  }

  /* ---- Outcomes and their audit words ---- */

  function TimeoutOutcome(action: OnTimeout): Outcome {
    Outcome(match action case TimeoutApprove => Approve case TimeoutReject => Reject case TimeoutSkip => Skip,
            Timeout)
  }

  function AuditString(o: Outcome): string {
    match (o.decision, o.origin)
    case (Approve, Manual) => "approve"
    case (Reject, Manual) => "reject"
    case (Skip, Manual) => "skip"
    case (Approve, Timeout) => "timeout_approve"
    case (Reject, Timeout) => "timeout_reject"
    case (Skip, Timeout) => "timeout_skip"
  }

  function DecidedStatus(d: GateDecision): GateStatus {
    match d
    case Approve => Approved
    case Reject => Rejected
    case Skip => Skipped
  }

  /* ---- Timeouts ---- */

  function ResolveTimeoutAction(
    status: GateStatus, requestedAt: int, timeoutHours: nat, onTimeout: OnTimeout, now: int
  ): Option<Outcome> {
    if status != Pending then None
    else if now >= requestedAt + timeoutHours * HOUR_MS then Some(TimeoutOutcome(onTimeout))
    else None
  }

  predicate Expired(g: Gate, now: int) {
    g.status == Pending && g.timeoutAt.Some? && now >= g.timeoutAt.value
  }

  /** The gate after the in-place timeout check; unchanged unless it has expired. */
  function TimeoutApplied(g: Gate, action: OnTimeout, now: int): Gate {
    if Expired(g, now) then
      g.(status := DecidedStatus(TimeoutOutcome(action).decision),
         decision := Some(AuditString(TimeoutOutcome(action))),
         decidedAt := Some(now))
    else g
  }

  function TimeoutResult(g: Gate, action: OnTimeout, now: int): Option<Outcome> {
    if Expired(g, now) then Some(TimeoutOutcome(action)) else None
  }

  /** A gate as it is built at time `at` with a timeout of whole hours, once its times went through text. */
  predicate BuiltAt(g: Gate, at: int, timeoutHours: nat) {
    && g.requestedAt == TruncateToSeconds(at)
    && g.timeoutAt == Some(TruncateToSeconds(at + timeoutHours * HOUR_MS))
  }

  /** The pinned deadline and the request time plus whole hours expire at the same instants. */
  lemma {:induction false} TimeoutRulesAgree(g: Gate, at: int, timeoutHours: nat, action: OnTimeout, now: int)
    requires BuiltAt(g, at, timeoutHours)
    ensures TimeoutResult(g, action, now) == ResolveTimeoutAction(g.status, g.requestedAt, timeoutHours, action, now)
  {
    TruncateAddsHours(at, timeoutHours);
  }

  lemma {:induction false} TruncateAddsHours(at: int, hours: nat)
    ensures TruncateToSeconds(at + hours * HOUR_MS) == TruncateToSeconds(at) + hours * HOUR_MS
  {
    var k := hours * 3600;
    assert at + hours * HOUR_MS == at + 1000 * k;
    DivShift(at, k);
  }

  lemma {:induction false} DivShift(a: int, k: int)
    ensures (a + 1000 * k) / 1000 == a / 1000 + k
  {
  }

  /** A timeout settles a gate once and for all, and touches no gate that was decided. */
  lemma {:induction false} TimeoutOnlyOnce(g: Gate, first: OnTimeout, second: OnTimeout, now: int, later: int)
    ensures var once := TimeoutApplied(g, first, now);
            && (once != g ==> TimeoutApplied(once, second, later) == once && TimeoutResult(once, second, later) == None)
            && (g.status != Pending ==> once == g)
            && (once.status == Pending <==> g.status == Pending && TimeoutResult(g, first, now) == None)
  {
  }

  /* ---- Gate ids ---- */

  function HexDigit(n: nat): char
    requires n < 16
  {
    if n < 10 then ('0' as int + n) as char else ('a' as int + n - 10) as char
  }

  /** `n` in base 16 with at least `width` digits. */
  function Hex(n: nat, width: nat): string
    decreases n, width
  {
    if n < 16 && width <= 1 then [HexDigit(n)]
    else Hex(n / 16, if width == 0 then 0 else width - 1) + [HexDigit(n % 16)]
  }

  function Power16(k: nat): nat {
    if k == 0 then 1 else 16 * Power16(k - 1)
  }

  lemma {:induction false} HexFixedWidth(n: nat, width: nat)
    requires width > 0 && n < Power16(width)
    ensures |Hex(n, width)| == width
  {
    if width > 1 {
      assert n / 16 < Power16(width - 1);
      HexFixedWidth(n / 16, width - 1);
    }
  }

  function DigitValue(c: char): nat {
    if '0' <= c <= '9' then c as int - '0' as int else if 'a' <= c <= 'f' then c as int - 'a' as int + 10 else 0
  }

  /** What a string of hexadecimal digits stands for. */
  function HexValue(s: string): nat {
    if s == "" then 0 else 16 * HexValue(s[..|s| - 1]) + DigitValue(s[|s| - 1])
  }

  lemma {:induction false} HexReadsBack(n: nat, width: nat)
    ensures HexValue(Hex(n, width)) == n && ':' !in Hex(n, width)
    decreases n, width
  {
    if n < 16 && width <= 1 {
      assert [HexDigit(n)][..0] == "";
    } else {
      var front := Hex(n / 16, if width == 0 then 0 else width - 1);
      HexReadsBack(n / 16, if width == 0 then 0 else width - 1);
      assert (front + [HexDigit(n % 16)])[..|front|] == front;
    }
  }

  /** The id of a gate: the counter is bumped once for every id. */
  function NewGateId(featureId: string, layer: string, now: int, counter: nat): string {
    featureId + ":" + layer + ":" + (Hex(if now > 0 then now else 0, 12) + Hex(counter, 8))
  }

  /** What follows the last colon of an id. */
  lemma {:induction false} SameAfterColon(a: string, x: string, b: string, y: string)
    requires a + ":" + x == b + ":" + y && ':' !in x && ':' !in y
    ensures x == y
  {
    var s, t := a + ":" + x, b + ":" + y;
    assert s[|a|] == ':' && t[|b|] == ':';
    assert forall i :: |a| < i < |s| ==> s[i] == x[i - |a| - 1];
    assert forall i :: |b| < i < |t| ==> t[i] == y[i - |b| - 1];
    assert |a| == |b|;
    assert s[|a| + 1..] == x && t[|b| + 1..] == y;
  }

  lemma {:induction false} SameHalves(a: string, x: string, b: string, y: string)
    requires a + x == b + y && (|a| == |b| || |x| == |y|)
    ensures a == b && x == y
  {
    assert |a| == |b|;
    assert (a + x)[..|a|] == a && (b + y)[..|b|] == b;
    assert (a + x)[|a|..] == x && (b + y)[|b|..] == y;
  }

  predicate TwelveDigits(now: int) {
    now < Power16(12)
  }

  /** Two ids are the same only if counter and time are, whatever the features and the layers, as long as
      the times have at most twelve hexadecimal digits, or the counters at most eight. */
  lemma {:induction false} GateIdsDistinct(
    f1: string, l1: string, t1: int, c1: nat, f2: string, l2: string, t2: int, c2: nat)
    requires (TwelveDigits(t1) && TwelveDigits(t2)) || (c1 <= U32_MAX && c2 <= U32_MAX)
    requires NewGateId(f1, l1, t1, c1) == NewGateId(f2, l2, t2, c2)
    ensures c1 == c2 && (t1 == t2 || (t1 <= 0 && t2 <= 0))
  {
    var n1, n2 := if t1 > 0 then t1 else 0, if t2 > 0 then t2 else 0;
    HexReadsBack(n1, 12);
    HexReadsBack(n2, 12);
    HexReadsBack(c1, 8);
    HexReadsBack(c2, 8);
    SameAfterColon(f1 + ":" + l1, Hex(n1, 12) + Hex(c1, 8), f2 + ":" + l2, Hex(n2, 12) + Hex(c2, 8));
    if TwelveDigits(t1) && TwelveDigits(t2) {
      TwelveWide(n1);
      TwelveWide(n2);
    } else {
      EightDigits(c1);
      EightDigits(c2);
    }
    SameHalves(Hex(n1, 12), Hex(c1, 8), Hex(n2, 12), Hex(c2, 8));
  }

  lemma {:induction false} TwelveWide(n: nat)
    requires n == 0 || TwelveDigits(n)
    ensures |Hex(n, 12)| == 12
  {
    assert 0 < Power16(12);
    HexFixedWidth(n, 12);
  }

  lemma {:induction false} EightDigits(c: nat)
    requires c <= U32_MAX
    ensures c < Power16(8) && |Hex(c, 8)| == 8
  {
    assert Power16(4) == 65536;
    assert Power16(8) == U32_MAX + 1;
    HexFixedWidth(c, 8);
  }
}
