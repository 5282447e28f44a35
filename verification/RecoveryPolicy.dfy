/** Bounded recovery probing: a closed policy table, pure decisions, and what any schedule of calls can do. */
module RecoveryPolicy {
  import opened Prelude

  datatype Cause =
    | BaseCiUnstable | ExternalDependency | ScopeBoundary | HumanDecisionRequired
    | ToolingUnavailable | OrderedChildPaneExited

  datatype Phase = Diagnosing | WaitingSignal | Revalidating | ResumeIntended | Resuming | HumanGate

  datatype ProbeKind = BaseCi | Dependency | RuntimeHealth | NoProbe

  datatype Policy = Policy(
    maxRounds: nat, maxWait: real, probe: ProbeKind, automaticResume: bool, immediateGate: bool, backoffs: seq<real>)

  /** Evidence texts are absent when blank. */
  datatype Evidence = Evidence(
    attribution: Option<string>, scope: Option<string>, baseSha: Option<string>,
    observedBase: Option<string>, signalRevision: Option<string>, lastSeq: Option<nat>)

  datatype Recovery = Recovery(
    cause: Cause, phase: Phase, round: nat, nextAction: string, enteredAt: real,
    evidence: Evidence, lastProbeAt: Option<real>, nextProbeAt: Option<real>, probeCount: nat)

  datatype ProbeResult = ProbeResult(
    healthy: bool, observedBase: Option<string>, signalRevision: Option<string>, sequence: nat)

  datatype Action = Wait | Probe | Resume | OpenGate | Exhausted

  datatype Decision = Decision(action: Action, nextProbeAt: Option<real>)

  /** `Illegal` is a phase change outside the table; `BadTime` is the constructor refusing a negative clock. */
  datatype Refusal = Illegal | BadTime

  type Outcome = Result<Recovery, Refusal>

  // ---- the policy table

  function Automatic(probe: ProbeKind): Policy {
    Policy(3, 1800.0, probe, true, false, [30.0, 120.0, 300.0])
  }

  const GATED := Policy(0, 0.0, NoProbe, false, true, [])

  function PolicyFor(cause: Cause): Policy {
    match cause
    case BaseCiUnstable => Automatic(BaseCi)
    case ExternalDependency => Automatic(Dependency)
    case OrderedChildPaneExited => Automatic(RuntimeHealth)
    case ScopeBoundary => GATED
    case HumanDecisionRequired => GATED
    case ToolingUnavailable => GATED
  }

  function Backoff(p: Policy, round: nat): real {
    if p.backoffs == [] then 0.0
    else p.backoffs[if round < |p.backoffs| then round else |p.backoffs| - 1]
  }

  function ProbeName(probe: ProbeKind): string {
    match probe
    case BaseCi => "probe:base_ci"
    case Dependency => "probe:dependency"
    case RuntimeHealth => "probe:runtime_health"
    case NoProbe => "probe:none"
  }

  // ---- phase transitions

  predicate Legal(a: Phase, b: Phase) {
    match a
    case Diagnosing => b.WaitingSignal? || b.Revalidating? || b.ResumeIntended? || b.HumanGate?
    case WaitingSignal => b.Revalidating? || b.ResumeIntended? || b.HumanGate?
    case Revalidating => b.ResumeIntended? || b.HumanGate?
    case ResumeIntended => b.Resuming? || b.HumanGate?
    case Resuming => b.WaitingSignal? || b.Revalidating? || b.HumanGate?
    case HumanGate => b.ResumeIntended?
  }

  /** A change of phase uses a round; staying only restarts the clock. */
  function Transition(s: Recovery, phase: Phase, nextAction: string, now: real, evidence: Evidence): Outcome {
    if phase != s.phase && !Legal(s.phase, phase) then Err(Illegal)
    else if now < 0.0 then Err(BadTime)
    else Ok(s.(phase := phase, round := if phase == s.phase then s.round else s.round + 1,
               nextAction := nextAction, enteredAt := now, evidence := evidence))
  }

  // ---- signals, decisions, probes

  function PriorSeq(s: Recovery): nat {
    if s.evidence.lastSeq.Some? then s.evidence.lastSeq.value else 0
  }

  /** A signal counts only when it is healthy, typed, newer, and for a base probe attributed to this base. */
  predicate Authoritative(s: Recovery, r: ProbeResult) {
    && r.healthy && r.signalRevision.Some? && r.sequence > PriorSeq(s)
    && (PolicyFor(s.cause).probe.BaseCi? ==>
          && s.evidence.attribution == Some("base_pre_existing") && s.evidence.scope == Some("base")
          && r.observedBase.Some? && (s.evidence.baseSha.None? || r.observedBase == s.evidence.baseSha))
  }

  function Decide(s: Recovery, now: real, result: Option<ProbeResult>): Decision {
    var p := PolicyFor(s.cause);
    if p.immediateGate || s.phase.HumanGate? then Decision(OpenGate, None)
    else if s.round >= p.maxRounds || now - s.enteredAt >= p.maxWait then Decision(Exhausted, None)
    else if result.Some? && Authoritative(s, result.value) then
      Decision(if p.automaticResume then Resume else OpenGate, None)
    else if s.nextProbeAt.Some? && now < s.nextProbeAt.value then Decision(Wait, s.nextProbeAt)
    else Decision(Probe, Some(now + Backoff(p, s.round)))
  }

  predicate Probes(s: Recovery, now: real) {
    Decide(s, now, None).action.Probe?
  }

  /** Persist one probe and its backoff, when one is due. */
  function Schedule(s: Recovery, now: real): Outcome {
    if !Probes(s, now) then Ok(s)
    else if now < 0.0 then Err(BadTime)
    else Ok(s.(phase := WaitingSignal, nextAction := ProbeName(PolicyFor(s.cause).probe),
               nextProbeAt := Decide(s, now, None).nextProbeAt,
               lastProbeAt := Some(now), probeCount := s.probeCount + 1))
  }

  function ApplyResult(s: Recovery, r: ProbeResult, now: real): Outcome {
    if !Authoritative(s, r) then Ok(s)
    else
      var evidence := s.evidence.(observedBase := r.observedBase, signalRevision := r.signalRevision,
                                  lastSeq := Some(r.sequence));
      if PolicyFor(s.cause).automaticResume then Transition(s, ResumeIntended, "resume_same_owner", now, evidence)
      else Transition(s, HumanGate, "open_human_gate", now, evidence)
  }

  // ---- the probe bound

  /** Offer a probe at each of these times. */
  function Polled(s: Recovery, times: seq<real>): Recovery
    decreases |times|
  {
    if times == [] then s
    else Polled(match Schedule(s, times[0]) case Ok(t) => t case Err(_) => s, times[1..])
  }

  predicate NonDecreasing(times: seq<real>) {
    forall i, j :: 0 <= i < j < |times| ==> times[i] <= times[j]
  }

  /** The largest number of probes a policy allows in one round: ceil(maxWait / backoff), or none. */
  function ProbeLimit(cause: Cause, round: nat): nat {
    if !PolicyFor(cause).automaticResume then 0
    else if round == 0 then 60 else if round == 1 then 15 else if round == 2 then 6 else 0
  }

  /** The limit is the least integer no smaller than the wait divided by the backoff. */
  lemma ProbeLimitIsCeiling(cause: Cause, round: nat)
    requires PolicyFor(cause).automaticResume && round < PolicyFor(cause).maxRounds
    ensures var p := PolicyFor(cause);
            var n := ProbeLimit(cause, round) as real;
            Backoff(p, round) * n >= p.maxWait && Backoff(p, round) * (n - 1.0) < p.maxWait
  {
  }

  /** n probes since entering leave the next one due no earlier than n backoffs after it. */
  predicate Spaced(s: Recovery, n: nat) {
    n > 0 ==>
      && s.nextProbeAt.Some?
      && s.nextProbeAt.value >= s.enteredAt + n as real * Backoff(PolicyFor(s.cause), s.round)
  }

  lemma ScheduleSpaces(s: Recovery, now: real, n: nat)
    requires now >= s.enteredAt && Spaced(s, n)
    ensures match Schedule(s, now)
            case Err(_) => true
            case Ok(t) =>
              && t.enteredAt == s.enteredAt && t.round == s.round && t.cause == s.cause
              && (t == s ||
                  (t.probeCount == s.probeCount + 1 && Spaced(t, n + 1) && n + 1 <= ProbeLimit(s.cause, s.round)))
  {
    var b := Backoff(PolicyFor(s.cause), s.round);
    if Probes(s, now) {
      assert now >= s.enteredAt + n as real * b;
      assert (n + 1) as real * b == n as real * b + b;
    }
  }

  lemma {:induction false} ProbesAreSpaced(s: Recovery, times: seq<real>, n: nat)
    requires NonDecreasing(times) && (times != [] ==> times[0] >= s.enteredAt)
    requires Spaced(s, n) && n <= ProbeLimit(s.cause, s.round)
    ensures s.probeCount <= Polled(s, times).probeCount
    ensures n + (Polled(s, times).probeCount - s.probeCount) <= ProbeLimit(s.cause, s.round)
    decreases |times|
  {
    if times != [] {
      ScheduleSpaces(s, times[0], n);
      match Schedule(s, times[0])
      case Err(_) => ProbesAreSpaced(s, times[1..], n);
      case Ok(t) => ProbesAreSpaced(t, times[1..], if t == s then n else n + 1);
    }
  }

  /**
   Between two recovery transitions, on a clock that never runs back before the entry, at most
   ceil(maxWait / backoff) probes are scheduled: 60, 15 and 6 in the three rounds, none afterwards.
   */
  lemma ProbesAreBounded(s: Recovery, times: seq<real>)
    requires NonDecreasing(times) && (times != [] ==> times[0] >= s.enteredAt)
    ensures Polled(s, times).probeCount - s.probeCount <= ProbeLimit(s.cause, s.round)
  {
    ProbesAreSpaced(s, times, 0);
  }

  /** Polling at exactly every backoff. */
  function Ticks(start: real, step: real, n: nat): seq<real>
    decreases n
  {
    if n == 0 then [] else [start] + Ticks(start + step, step, n - 1)
  }

  lemma {:induction false} TicksAllProbe(s: Recovery, at: real, n: nat)
    requires !s.phase.HumanGate? && PolicyFor(s.cause).automaticResume && s.round < 3 && at >= 0.0
    requires s.nextProbeAt.Some? ==> s.nextProbeAt.value <= at
    requires n > 0 ==> at + (n as real - 1.0) * Backoff(PolicyFor(s.cause), s.round) < s.enteredAt + 1800.0
    ensures var b := Backoff(PolicyFor(s.cause), s.round);
            Polled(s, Ticks(at, b, n)).probeCount == s.probeCount + n
    decreases n
  {
    var b := Backoff(PolicyFor(s.cause), s.round);
    if n > 0 {
      assert (n as real - 1.0) * b >= 0.0;
      assert Probes(s, at);
      var t := Schedule(s, at).value;
      assert Ticks(at, b, n)[1..] == Ticks(at + b, b, n - 1);
      assert at + b + ((n - 1) as real - 1.0) * b == at + (n as real - 1.0) * b;
      TicksAllProbe(t, at + b, n - 1);
    }
  }

  /** The bound is reached: polling at every backoff from the entry on schedules exactly that many probes. */
  lemma BoundIsReached(s: Recovery)
    requires !s.phase.HumanGate? && PolicyFor(s.cause).automaticResume && s.round < 3 && s.enteredAt >= 0.0
    requires s.nextProbeAt.Some? ==> s.nextProbeAt.value <= s.enteredAt
    ensures var n := ProbeLimit(s.cause, s.round);
            var times := Ticks(s.enteredAt, Backoff(PolicyFor(s.cause), s.round), n);
            Polled(s, times).probeCount == s.probeCount + n
  {
    ProbeLimitIsCeiling(s.cause, s.round);
    TicksAllProbe(s, s.enteredAt, ProbeLimit(s.cause, s.round));
  }

  // ---- signals

  /** Applying one probe result twice is applying it once, at whatever times. */
  lemma ApplyTwiceIsOnce(s: Recovery, r: ProbeResult, now: real, later: real)
    requires ApplyResult(s, r, now).Ok?
    ensures ApplyResult(ApplyResult(s, r, now).value, r, later) == ApplyResult(s, r, now)
  {
  }

  /** A decision to resume is taken exactly within the bounds of an automatic policy, on an authoritative signal. */
  lemma ResumeIff(s: Recovery, now: real, r: ProbeResult)
    ensures Decide(s, now, Some(r)).action.Resume? <==>
              && PolicyFor(s.cause).automaticResume && !s.phase.HumanGate?
              && s.round < 3 && now - s.enteredAt < 1800.0 && Authoritative(s, r)
  {
  }

  /**
   A probe result is taken up, changing the recovery or refused by the phase table, exactly when it is healthy,
   names its revision and is newer than the last one; a base probe also needs the failure attributed to the base,
   and the base it observed must be the recorded one, if one is recorded. Every other result is passed over.
   */
  lemma SignalCountsIff(s: Recovery, r: ProbeResult, now: real)
    ensures ApplyResult(s, r, now) != Ok(s) <==>
              && r.healthy && r.signalRevision.Some?
              && r.sequence > (if s.evidence.lastSeq.Some? then s.evidence.lastSeq.value else 0)
              && (s.cause.BaseCiUnstable? ==>
                    && (s.evidence.attribution, s.evidence.scope) == (Some("base_pre_existing"), Some("base"))
                    && r.observedBase.Some?
                    && (s.evidence.baseSha.Some? ==> r.observedBase.value == s.evidence.baseSha.value))
  {
  }

  /** The causes that are retried on their own; the others wait for a human from the start. */
  predicate Retried(cause: Cause) {
    cause.BaseCiUnstable? || cause.ExternalDependency? || cause.OrderedChildPaneExited?
  }

  /**
   The bounded decision, by cause, rounds and clock: a gate for the causes a human decides and behind the gate,
   exhaustion after three rounds or half an hour, then the signal, then the backoff of 30, 120 or 300 seconds.
   */
  lemma DecisionIs(s: Recovery, now: real, result: Option<ProbeResult>)
    ensures var d := Decide(s, now, result);
            var gated := !Retried(s.cause) || s.phase.HumanGate?;
            var spent := s.round >= 3 || now - s.enteredAt >= 1800.0;
            var counts := result.Some? && ApplyResult(s, result.value, now) != Ok(s);
            var early := s.nextProbeAt.Some? && now < s.nextProbeAt.value;
            && (d.action.OpenGate? <==> gated)
            && (d.action.Exhausted? <==> !gated && spent)
            && (d.action.Resume? <==> !gated && !spent && counts)
            && (d.action.Wait? <==> !gated && !spent && !counts && early)
            && (d.action.Probe? <==> !gated && !spent && !counts && !early)
            && d.nextProbeAt == (if d.action.Wait? then s.nextProbeAt
                                 else if !d.action.Probe? then None
                                 else if s.round == 0 then Some(now + 30.0)
                                 else if s.round == 1 then Some(now + 120.0) else Some(now + 300.0))
  {
    if result.Some? { SignalCountsIff(s, result.value, now); }
  }

  /** The phase a signal leads to: towards a resume for an automatic policy, behind the human gate for the others. */
  function SignalledPhase(cause: Cause): Phase {
    if PolicyFor(cause).automaticResume then ResumeIntended else HumanGate
  }

  /**
   An accepted signal uses up a round unless the recovery already is where the signal leads; there it restarts
   the wait in the same round, so newer signals can extend that round without limit.
   */
  lemma AcceptedSignalUsesARoundIff(s: Recovery, r: ProbeResult, now: real)
    requires Authoritative(s, r) && ApplyResult(s, r, now).Ok?
    ensures var t := ApplyResult(s, r, now).value;
            && t.phase == SignalledPhase(s.cause) && t.enteredAt == now
            && (t.round == s.round + 1 <==> s.phase != SignalledPhase(s.cause))
            && (t.round == s.round <==> s.phase == SignalledPhase(s.cause))
  {
  }

  /** Scheduling a probe sets the waiting phase without consulting the table, and uses no round. */
  lemma ScheduledProbeKeepsTheTableIff(s: Recovery, now: real)
    requires Probes(s, now) && now >= 0.0
    ensures var t := Schedule(s, now).value;
            && t.phase.WaitingSignal? && t.round == s.round
            && ((t.phase == s.phase || Legal(s.phase, t.phase))
                <==> !s.phase.Revalidating? && !s.phase.ResumeIntended?)
  {
  }

  /** The probe a cause waits for. */
  const PROBE_ACTION := map[
    BaseCiUnstable := "probe:base_ci", ExternalDependency := "probe:dependency",
    OrderedChildPaneExited := "probe:runtime_health"]

  /** The changes of phase the machine allows. */
  const EDGES: set<(Phase, Phase)> := {
    (Diagnosing, WaitingSignal), (Diagnosing, Revalidating), (Diagnosing, ResumeIntended), (Diagnosing, HumanGate),
    (WaitingSignal, Revalidating), (WaitingSignal, ResumeIntended), (WaitingSignal, HumanGate),
    (Revalidating, ResumeIntended), (Revalidating, HumanGate),
    (ResumeIntended, Resuming), (ResumeIntended, HumanGate),
    (Resuming, WaitingSignal), (Resuming, Revalidating), (Resuming, HumanGate),
    (HumanGate, ResumeIntended)}

  /** A recovery changes its phase exactly along those edges, on a clock that is not negative. */
  lemma TransitionAllowedIff(s: Recovery, phase: Phase, nextAction: string, now: real, evidence: Evidence)
    ensures var o := Transition(s, phase, nextAction, now, evidence);
            && (o.Ok? <==> (phase == s.phase || (s.phase, phase) in EDGES) && now >= 0.0)
            && (o == Err(Illegal) <==> phase != s.phase && (s.phase, phase) !in EDGES)
            && (o.Ok? ==>
                  && (o.value.phase, o.value.nextAction, o.value.enteredAt) == (phase, nextAction, now)
                  && o.value.evidence == evidence && o.value.probeCount == s.probeCount
                  && (o.value.lastProbeAt, o.value.nextProbeAt) == (s.lastProbeAt, s.nextProbeAt))
  {
  }

  /** A scheduled probe is on record with its time, its kind and the time of the next one. */
  lemma ProbeIsRecorded(s: Recovery, now: real)
    requires Probes(s, now) && now >= 0.0
    ensures var t := Schedule(s, now).value;
            && s.cause in PROBE_ACTION && t.nextAction == PROBE_ACTION[s.cause]
            && t.lastProbeAt == Some(now) && t.probeCount == s.probeCount + 1
            && t.nextProbeAt == Some(now + [30.0, 120.0, 300.0][s.round])
            && (t.enteredAt, t.evidence, t.cause) == (s.enteredAt, s.evidence, s.cause)
  {
    DecisionIs(s, now, None);
  }

  /** An accepted signal leaves the base it observed, its revision and its number, and names what comes next. */
  lemma SignalIsRecorded(s: Recovery, r: ProbeResult, now: real)
    requires ApplyResult(s, r, now) != Ok(s) && ApplyResult(s, r, now).Ok?
    ensures var t := ApplyResult(s, r, now).value;
            && t.evidence.observedBase == r.observedBase && t.evidence.signalRevision == r.signalRevision
            && t.evidence.lastSeq == Some(r.sequence)
            && (t.evidence.attribution, t.evidence.scope, t.evidence.baseSha)
               == (s.evidence.attribution, s.evidence.scope, s.evidence.baseSha)
            && t.nextAction == (if Retried(s.cause) then "resume_same_owner" else "open_human_gate")
            && (t.probeCount, t.lastProbeAt, t.nextProbeAt) == (s.probeCount, s.lastProbeAt, s.nextProbeAt)
  {
  }

  // ---- runs

  datatype Step =
    | Poll(now: real)
    | Signal(result: ProbeResult, now: real)
    | Move(phase: Phase, nextAction: string, now: real)

  function StepOrStay(s: Recovery, e: Step): Recovery {
    var o := match e
      case Poll(now) => Schedule(s, now)
      case Signal(r, now) => ApplyResult(s, r, now)
      case Move(phase, nextAction, now) => Transition(s, phase, nextAction, now, s.evidence);
    match o
    case Ok(t) => t
    case Err(_) => s
  }

  function At(s: Recovery, steps: seq<Step>, n: nat): Recovery
    requires n <= |steps|
  {
    if n == 0 then s else StepOrStay(At(s, steps, n - 1), steps[n - 1])
  }

  /** The n-th step is a signal the recovery accepted. */
  predicate Accepted(s: Recovery, steps: seq<Step>, n: nat) {
    && n < |steps| && steps[n].Signal?
    && Authoritative(At(s, steps, n), steps[n].result)
    && ApplyResult(At(s, steps, n), steps[n].result, steps[n].now).Ok?
  }

  lemma StepKeepsSeq(s: Recovery, e: Step)
    ensures PriorSeq(s) <= PriorSeq(StepOrStay(s, e))
  {
  }

  lemma {:induction false} SeqNeverGoesBack(s: Recovery, steps: seq<Step>, i: nat, j: nat)
    requires i <= j <= |steps|
    ensures PriorSeq(At(s, steps, i)) <= PriorSeq(At(s, steps, j))
    decreases j
  {
    hide StepOrStay;
    if i < j {
      SeqNeverGoesBack(s, steps, i, j - 1);
      StepKeepsSeq(At(s, steps, j - 1), steps[j - 1]);
    }
  }

  /** Along every run the sequence numbers of accepted signals strictly increase. */
  lemma AcceptedSignalsIncrease(s: Recovery, steps: seq<Step>, i: nat, j: nat)
    requires i < j < |steps| && Accepted(s, steps, i) && Accepted(s, steps, j)
    ensures steps[i].result.sequence < steps[j].result.sequence
  {
    SeqNeverGoesBack(s, steps, i + 1, j);
  }

  lemma EntersResuming(s: Recovery, e: Step)
    ensures StepOrStay(s, e).phase.Resuming? && !s.phase.Resuming? ==> s.phase.ResumeIntended? && e.Move?
  {
  }

  /**
   Along every run a recovery is resuming only since a resume was intended: before the steps that stayed in
   the resuming phase stands one that left the intention for it.
   */
  lemma {:induction false} ResumingWasIntended(s: Recovery, steps: seq<Step>, n: nat) returns (i: nat)
    requires n <= |steps| && At(s, steps, n).phase.Resuming? && !s.phase.Resuming?
    ensures i < n && At(s, steps, i).phase.ResumeIntended? && steps[i].Move?
    ensures forall k :: i < k <= n ==> At(s, steps, k).phase.Resuming?
  {
    hide StepOrStay;
    var before := At(s, steps, n - 1);
    EntersResuming(before, steps[n - 1]);
    hide At;
    if before.phase.Resuming? {
      i := ResumingWasIntended(s, steps, n - 1);
    } else {
      i := n - 1;
    }
  }

  /** The n-th step is a signal on which the policy decided to resume, from a phase that did not intend to yet. */
  predicate Resumed(s: Recovery, steps: seq<Step>, n: nat) {
    && Accepted(s, steps, n) && !At(s, steps, n).phase.ResumeIntended?
    && Decide(At(s, steps, n), steps[n].now, Some(steps[n].result)).action.Resume?
  }

  function Resumptions(s: Recovery, steps: seq<Step>, n: nat): nat
    requires n <= |steps|
  {
    if n == 0 then 0
    else Resumptions(s, steps, n - 1) + if Resumed(s, steps, n - 1) then 1 else 0
  }

  lemma RoundNeverFalls(s: Recovery, e: Step)
    ensures StepOrStay(s, e).round >= s.round && StepOrStay(s, e).cause == s.cause
  {
  }

  lemma ResumptionUsesARound(s: Recovery, steps: seq<Step>, n: nat)
    requires Resumed(s, steps, n)
    ensures At(s, steps, n + 1).round == At(s, steps, n).round + 1
    ensures PolicyFor(At(s, steps, n).cause).automaticResume && At(s, steps, n).round < 3
  {
    var before, e := At(s, steps, n), steps[n];
    ResumeIff(before, e.now, e.result);
    AcceptedSignalUsesARoundIff(before, e.result, e.now);
  }

  /**
   However polls, signals and moves interleave, the policy lets a recovery resume once a round and in three
   rounds at most; a recovery behind a gate never resumes on its own.
   */
  lemma {:induction false} ResumptionsAreBounded(s: Recovery, steps: seq<Step>, n: nat)
    requires n <= |steps|
    ensures At(s, steps, n).cause == s.cause
    ensures Resumptions(s, steps, n) <= At(s, steps, n).round - s.round
    ensures Resumptions(s, steps, n)
         <= if PolicyFor(s.cause).automaticResume then Max(0, 3 - s.round) else 0
  {
    hide Resumed, StepOrStay, PolicyFor;
    if n > 0 {
      ResumptionsAreBounded(s, steps, n - 1);
      RoundNeverFalls(At(s, steps, n - 1), steps[n - 1]);
      if Resumed(s, steps, n - 1) { ResumptionUsesARound(s, steps, n - 1); }
    }
  }
}
