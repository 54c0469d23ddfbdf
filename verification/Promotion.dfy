/** Promotion rules, the capsules they emit, and one run of the promoter. */
module Promotion {
  import opened Wrappers
  import opened Capsules
  import opened KpiWindow

  // ---------------------------------------------------------------- rules

  datatype Criteria = Criteria(minImproved: int, minMeanDelta: real, onlyMachines: seq<string>)

  const DEFAULT_CRITERIA := Criteria(1, 0.0, [])

  predicate IsPromotionCandidate(c: Capsule, crit: Criteria) {
    && c.kind == Rollup
    && c.improved >= crit.minImproved
    && c.meanDelta >= crit.minMeanDelta
    && (crit.onlyMachines == [] || c.machine in crit.onlyMachines)
  }

  /** The capsule records the promotion of `sourceID`. */
  predicate Promotes(c: Capsule, sourceID: string) {
    && c.metadata.Some?
    && Lookup(c.metadata.value, Kind) == Named(Promotion)
    && Lookup(c.metadata.value, SourceCapsule) == Text(sourceID)
  }

  predicate Recorded(prior: seq<Capsule>, sourceID: string) {
    exists i :: 0 <= i < |prior| && Promotes(prior[i], sourceID)
  }

  method AlreadyPromoted(prior: seq<Capsule>, sourceID: string) returns (found: bool)
    ensures found == Recorded(prior, sourceID)
  {
    for i := 0 to |prior|
      invariant forall j :: 0 <= j < i ==> !Promotes(prior[j], sourceID)
    {
      var c := prior[i];
      if c.metadata.None? { continue; }
      if Lookup(c.metadata.value, Kind) == Named(Promotion) && Lookup(c.metadata.value, SourceCapsule) == Text(sourceID) {
        return true;
      }
    }
    return false;
  }

  /** The scan for the most recent promotion of a source, over the first n capsules. */
  function LatestPromotion(prior: seq<Capsule>, sourceID: string): Option<Capsule> {
    if prior == [] then None
    else
      var n := |prior| - 1;
      var best := LatestPromotion(prior[..n], sourceID);
      if Promotes(prior[n], sourceID) && (best.None? || prior[n].createdAt > best.value.createdAt)
      then Some(prior[n]) else best
  }

  method FindPromotionForRollup(prior: seq<Capsule>, sourceID: string) returns (best: Option<Capsule>)
    ensures best == LatestPromotion(prior, sourceID)
  {
    best := None;
    for i := 0 to |prior|
      invariant best == LatestPromotion(prior[..i], sourceID)
    {
      var c := prior[i];
      assert prior[..i + 1][..i] == prior[..i];
      if c.metadata.None? { continue; }
      if Lookup(c.metadata.value, Kind) != Named(Promotion) { continue; }
      if Lookup(c.metadata.value, SourceCapsule) != Text(sourceID) { continue; }
      if best.None? || c.createdAt > best.value.createdAt { best := Some(c); }
    }
    assert prior[..|prior|] == prior;
  }

  /** Machines of the rollups in order of first appearance. */
  function Machines(caps: seq<Capsule>): seq<string> {
    if caps == [] then []
    else
      var n := |caps| - 1;
      var before := Machines(caps[..n]);
      if caps[n].kind == Rollup && caps[n].machine != "" && caps[n].machine !in before
      then before + [caps[n].machine] else before
  }

  method DistinctMachines(caps: seq<Capsule>) returns (out: seq<string>)
    ensures out == Machines(caps)
  {
    var seen: set<string> := {};
    out := [];
    for i := 0 to |caps|
      invariant out == Machines(caps[..i])
      invariant forall m :: m in seen <==> m in out
    {
      var c := caps[i];
      assert caps[..i + 1][..i] == caps[..i];
      if c.kind != Rollup { continue; }
      if c.machine == "" { continue; }
      if c.machine in seen { continue; }
      seen := seen + {c.machine};
      out := out + [c.machine];
    }
    assert caps[..|caps|] == caps;
  }

  // ---------------------------------------------------------------- seams and records

  datatype GateResult = GateResult(exitCode: int, stdout: string, stderr: string)

  datatype GateOutcome = Ran(result: GateResult) | GateError(message: string)

  /** Number and text formatting, which the model leaves open. */
  datatype Format = Format(
    promotionID: (int, string) -> string,
    rollbackID: (int, string) -> string,
    truncated: string -> string,
    dec: int -> string,
    fixed6: real -> string,
    root6: real -> string,
    promotionText: (Capsule, int) -> string,
    rollbackText: (string, RegressionWindow, real) -> string)

  /**
   Everything the runner is handed. The k-th clock reading, the k-th gate call, the k-th write and
   the k-th context check may each answer differently, so the seams may keep state of their own.
   */
  datatype Seams = Seams(
    now: nat -> Time,
    gate: Option<(nat, Capsule) -> GateOutcome>,
    writer: Option<(nat, OutboxCapsule) -> Option<string>>,
    ctxErr: nat -> Option<string>,
    fmt: Format,
    userID: string,
    dryRun: bool)

  datatype Options = Options(
    candidates: seq<Capsule>,
    history: seq<Capsule>,
    rollups: seq<Capsule>,
    criteria: Criteria,
    window: int,
    sigma: real)

  datatype Reason =
    | NotCandidate
    | AlreadyRecorded
    | GateRunnerError(message: string)
    | GateExited(code: int)
    | GateGreen
    | Regressed(window: RegressionWindow, sigma: real)

  datatype DecisionState = Promoted | GateFailed | Skipped | RolledBack

  datatype Decision = Decision(
    capsuleID: string,
    machine: string,
    day: string,
    kind: CapsuleKind,
    state: DecisionState,
    reason: Reason,
    gate: GateResult,
    lastKPI: real,
    meanDelta: real,
    improved: int,
    rolledBack: int)

  datatype Summary = Summary(decisions: seq<Decision>, promoted: nat, skipped: nat, failed: nat, rollbacks: nat)

  /** The outbox and how often each seam has been used. */
  datatype World = World(clockReads: nat, gateCalls: nat, writes: nat, checks: nat, outbox: seq<OutboxCapsule>)

  datatype RunState = RunState(summary: Summary, world: World, err: Option<RunError>)

  const NO_GATE := GateResult(0, "", "")
  const HOUR := 3600 * 1000000000
  const UNIX_EPOCH := 62135596800

  /** Seconds since 1970 of an instant counted in nanoseconds from the zero time. */
  function Unix(t: Time): int { t / 1000000000 - UNIX_EPOCH }

  function EffectiveCriteria(c: Criteria): Criteria {
    if c.minImproved == 0 && c.minMeanDelta == 0.0 && c.onlyMachines == [] then DEFAULT_CRITERIA else c
  }

  function EffectiveWindow(window: int): int { if window <= 0 then 24 * HOUR else window }

  function EffectiveSigma(sigma: real): real { if sigma <= 0.0 then 1.0 else sigma }

  function BuildPromotionCapsule(d: Decision, source: Capsule, userID: string, ts: Time, fmt: Format): OutboxCapsule {
    OutboxCapsule(
      fmt.promotionID(Unix(ts), source.id),
      userID,
      fmt.promotionText(source, d.gate.exitCode),
      map[
        Kind := Named(Promotion),
        SourceCapsule := Text(source.id),
        Machine := Text(source.machine),
        Day := Text(source.day),
        ImprovedCount := Text(fmt.dec(source.improved)),
        RolledBackCount := Text(fmt.dec(source.rolledBack)),
        MeanDelta := Text(fmt.fixed6(source.meanDelta)),
        LastKpi := Text(fmt.fixed6(source.lastKPI)),
        GateExitCode := Text(fmt.dec(d.gate.exitCode))],
      ts)
  }

  function BuildRollbackCapsule(promotionID: string, w: RegressionWindow, sigma: real, userID: string, ts: Time, fmt: Format): OutboxCapsule {
    OutboxCapsule(
      fmt.rollbackID(Unix(ts), promotionID),
      userID,
      fmt.rollbackText(promotionID, w, sigma),
      map[
        Kind := Named(Rollback),
        SourcePromotion := Text(promotionID),
        Machine := Text(w.machine),
        WindowMean := Text(fmt.fixed6(w.mean)),
        WindowStdev := Text(fmt.root6(w.variance)),
        WindowLatestKpi := Text(fmt.fixed6(w.latest)),
        WindowSamples := Text(fmt.dec(w.samples)),
        SigmaThreshold := Text(fmt.fixed6(sigma))],
      ts)
  }

  // ---------------------------------------------------------------- one run as a function

  datatype RunError = Cancelled(message: string) | WriterMissing | WriteFailed(message: string)

  function Draft(c: Capsule): Decision {
    Decision(c.id, c.machine, c.day, c.kind, Skipped, NotCandidate, NO_GATE, c.lastKPI, c.meanDelta, c.improved, c.rolledBack)
  }

  /** The candidate reaches the gate. */
  predicate Eligible(c: Capsule, crit: Criteria, history: seq<Capsule>) {
    IsPromotionCandidate(c, crit) && !Recorded(history, c.id)
  }

  function GateOf(seams: Seams, call: nat, c: Capsule): GateOutcome {
    if seams.gate.None? then Ran(NO_GATE) else seams.gate.value(call, c)
  }

  function Verdict(seams: Seams, crit: Criteria, history: seq<Capsule>, call: nat, c: Capsule): Decision {
    if !IsPromotionCandidate(c, crit) then Draft(c).(reason := NotCandidate)
    else if Recorded(history, c.id) then Draft(c).(reason := AlreadyRecorded)
    else
      match GateOf(seams, call, c)
      case GateError(message) =>
        Draft(c).(state := GateFailed, reason := GateRunnerError(message), gate := GateResult(-1, "", ""))
      case Ran(res) =>
        var d := Draft(c).(gate := GateResult(res.exitCode, seams.fmt.truncated(res.stdout), seams.fmt.truncated(res.stderr)));
        if res.exitCode != 0
        then d.(state := GateFailed, reason := GateExited(res.exitCode))
        else d.(state := Promoted, reason := GateGreen)
  }

  function Tally(s: Summary, d: Decision): Summary {
    Summary(
      s.decisions + [d],
      s.promoted + if d.state == Promoted then 1 else 0,
      s.skipped + if d.state == Skipped then 1 else 0,
      s.failed + if d.state == GateFailed then 1 else 0,
      s.rollbacks + if d.state == RolledBack then 1 else 0)
  }

  /** Hands one capsule, stamped with a fresh clock reading, to the writer. */
  function Write(seams: Seams, s: RunState, cap: OutboxCapsule): RunState
    requires seams.writer.Some?
  {
    var w := s.world.(clockReads := s.world.clockReads + 1, writes := s.world.writes + 1);
    match seams.writer.value(s.world.writes, cap)
    case Some(e) => s.(world := w, err := Some(WriteFailed(e)))
    case None => s.(world := w.(outbox := w.outbox + [cap]))
  }

  function CancelledBy(e: Option<string>): Option<RunError> {
    if e.Some? then Some(Cancelled(e.value)) else None
  }

  function Check(seams: Seams, s: RunState): RunState {
    s.(world := s.world.(checks := s.world.checks + 1), err := CancelledBy(seams.ctxErr(s.world.checks)))
  }

  /** The run after a verdict on `c` and before anything is written for it. */
  function Decide(seams: Seams, crit: Criteria, history: seq<Capsule>, c: Capsule, s: RunState): RunState {
    var called := if Eligible(c, crit, history) && seams.gate.Some? then 1 else 0;
    RunState(
      Tally(s.summary, Verdict(seams, crit, history, s.world.gateCalls, c)),
      s.world.(checks := s.world.checks + 1, gateCalls := s.world.gateCalls + called),
      None)
  }

  function CandidateStep(seams: Seams, crit: Criteria, history: seq<Capsule>, c: Capsule, s: RunState): RunState {
    var checked := Check(seams, s);
    if checked.err.Some? then checked
    else
      var d := Verdict(seams, crit, history, s.world.gateCalls, c);
      var t := Decide(seams, crit, history, c, s);
      if d.state != Promoted || seams.dryRun then t
      else if seams.writer.None? then t.(err := Some(WriterMissing))
      else Write(seams, t, BuildPromotionCapsule(d, c, seams.userID, seams.now(t.world.clockReads), seams.fmt))
  }

  function CandidatePass(seams: Seams, crit: Criteria, history: seq<Capsule>, cands: seq<Capsule>, s: RunState): RunState {
    if cands == [] || s.err.Some? then s
    else CandidatePass(seams, crit, history, cands[1..], CandidateStep(seams, crit, history, cands[0], s))
  }

  /** What the rollback pass is looking at: the rollups, the history, the window and the threshold. */
  datatype Lookback = Lookback(rollups: seq<Capsule>, history: seq<Capsule>, from: Time, to: Time, sigma: real) {
    function Window(machine: string): RegressionWindow { WindowOf(rollups, machine, from, to) }

    function Source(machine: string): Capsule { LatestRollup(rollups, machine, from, to) }

    function Target(machine: string): Option<Capsule> { LatestPromotion(history, Source(machine).id) }

    predicate Fires(machine: string) { IsRegression(Window(machine), sigma) && Target(machine).Some? }
  }

  function RollbackDecision(seams: Seams, look: Lookback, machine: string): Decision {
    var w := look.Window(machine);
    Decision(look.Source(machine).id, machine, "", Rollup, RolledBack,
             Regressed(w, look.sigma), NO_GATE, w.latest, 0.0, 0, 0)
  }

  function RollbackStep(seams: Seams, look: Lookback, machine: string, s: RunState): RunState {
    var checked := Check(seams, s);
    if checked.err.Some? || !look.Fires(machine) then checked
    else
      // The capsule is built, and the clock read, before the dry-run test.
      var ts := seams.now(s.world.clockReads);
      var cap := BuildRollbackCapsule(look.Target(machine).value.id, look.Window(machine), look.sigma, seams.userID, ts, seams.fmt);
      var t := checked.(summary := Tally(s.summary, RollbackDecision(seams, look, machine)));
      if seams.dryRun then t.(world := t.world.(clockReads := s.world.clockReads + 1))
      else if seams.writer.None? then t.(world := t.world.(clockReads := s.world.clockReads + 1), err := Some(WriterMissing))
      else Write(seams, t, cap)
  }

  function RollbackPass(seams: Seams, look: Lookback, machines: seq<string>, s: RunState): RunState {
    if machines == [] || s.err.Some? then s
    else RollbackPass(seams, look, machines[1..], RollbackStep(seams, look, machines[0], s))
  }

  const EMPTY_SUMMARY := Summary([], 0, 0, 0, 0)

  function StartOf(w: World): RunState {
    RunState(EMPTY_SUMMARY, w.(clockReads := w.clockReads + 1), None)
  }

  function LookbackOf(seams: Seams, opts: Options, w: World): Lookback {
    var now := seams.now(w.clockReads);
    Lookback(opts.rollups, opts.history, now - EffectiveWindow(opts.window), now, EffectiveSigma(opts.sigma))
  }

  function AfterCandidates(seams: Seams, opts: Options, w: World): RunState {
    CandidatePass(seams, EffectiveCriteria(opts.criteria), opts.history, opts.candidates, StartOf(w))
  }

  function RunOf(seams: Seams, opts: Options, w: World): RunState {
    RollbackPass(seams, LookbackOf(seams, opts, w), Machines(opts.rollups), AfterCandidates(seams, opts, w))
  }

  // ---------------------------------------------------------------- the runner

  class PromoteRunner {
    const seams: Seams
    var clockReads: nat
    var gateCalls: nat
    var writes: nat
    var checks: nat
    var outbox: seq<OutboxCapsule>

    constructor (seams: Seams)
      ensures this.seams == seams && Here() == World(0, 0, 0, 0, [])
    {
      this.seams := seams;
      clockReads, gateCalls, writes, checks, outbox := 0, 0, 0, 0, [];
    }

    ghost function Here(): World
      reads this
    {
      World(clockReads, gateCalls, writes, checks, outbox)
    }

    method Now() returns (t: Time)
      modifies this
      ensures t == seams.now(old(clockReads))
      ensures Here() == old(Here()).(clockReads := old(clockReads) + 1)
    {
      t := seams.now(clockReads);
      clockReads := clockReads + 1;
    }

    method CheckContext() returns (err: Option<RunError>)
      modifies this
      ensures err == CancelledBy(seams.ctxErr(old(checks)))
      ensures Here() == old(Here()).(checks := old(checks) + 1)
    {
      err := CancelledBy(seams.ctxErr(checks));
      checks := checks + 1;
    }

    method Append(cap: OutboxCapsule) returns (err: Option<RunError>)
      requires seams.writer.Some?
      modifies this
      ensures var e := seams.writer.value(old(writes), cap); err == if e.Some? then Some(WriteFailed(e.value)) else None
      ensures Here() == old(Here()).(
                writes := old(writes) + 1,
                outbox := if err.Some? then old(outbox) else old(outbox) + [cap])
    {
      var e := seams.writer.value(writes, cap);
      writes := writes + 1;
      if e.Some? { return Some(WriteFailed(e.value)); }
      outbox := outbox + [cap];
      err := None;
    }

    /** Decides one candidate, calling the gate if it gets that far. */
    method Evaluate(crit: Criteria, history: seq<Capsule>, c: Capsule) returns (d: Decision)
      modifies this
      ensures d == Verdict(seams, crit, history, old(gateCalls), c)
      ensures Here() == old(Here()).(
                gateCalls := old(gateCalls) + if Eligible(c, crit, history) && seams.gate.Some? then 1 else 0)
    {
      d := Draft(c);
      if !IsPromotionCandidate(c, crit) {
        return d.(state := Skipped, reason := NotCandidate);
      }
      var already := AlreadyPromoted(history, c.id);
      if already {
        return d.(state := Skipped, reason := AlreadyRecorded);
      }
      var res := NO_GATE;
      if seams.gate.Some? {
        var outcome := seams.gate.value(gateCalls, c);
        gateCalls := gateCalls + 1;
        if outcome.GateError? {
          return d.(state := GateFailed, reason := GateRunnerError(outcome.message), gate := GateResult(-1, "", ""));
        }
        res := outcome.result;
      }
      d := d.(gate := GateResult(res.exitCode, seams.fmt.truncated(res.stdout), seams.fmt.truncated(res.stderr)));
      if res.exitCode != 0 {
        return d.(state := GateFailed, reason := GateExited(res.exitCode));
      }
      return d.(state := Promoted, reason := GateGreen);
    }

    /** One candidate of the first loop. */
    method PromoteOne(crit: Criteria, history: seq<Capsule>, c: Capsule, start: Summary)
      returns (summary: Summary, err: Option<RunError>)
      modifies this
      ensures RunState(summary, Here(), err) == CandidateStep(seams, crit, history, c, RunState(start, old(Here()), None))
    {
      summary := start;
      err := CheckContext();
      if err.Some? { return; }
      var d := Evaluate(crit, history, c);
      summary := Tally(summary, d);
      if d.state != Promoted { return; }
      if seams.dryRun { return; }
      if seams.writer.None? { return summary, Some(WriterMissing); }
      var ts := Now();
      err := Append(BuildPromotionCapsule(d, c, seams.userID, ts, seams.fmt));
    }

    /** One machine of the second loop. */
    method RollBackMachine(look: Lookback, machine: string, start: Summary) returns (summary: Summary, err: Option<RunError>)
      modifies this
      ensures RunState(summary, Here(), err) == RollbackStep(seams, look, machine, RunState(start, old(Here()), None))
    {
      hide IsRegression, WindowOf, LatestRollup, LatestPromotion, BuildRollbackCapsule, Tally;
      summary := start;
      err := CheckContext();
      if err.Some? { return; }
      var w := RollingKPIWindow(look.rollups, machine, look.from, look.to);
      if !IsRegression(w, look.sigma) { return; }
      var sourceID := LatestRollupID(look.rollups, machine, look.from, look.to);
      var promo := FindPromotionForRollup(look.history, sourceID);
      if promo.None? { return; }
      var ts := Now();
      var rollback := BuildRollbackCapsule(promo.value.id, w, look.sigma, seams.userID, ts, seams.fmt);
      summary := Tally(summary, Decision(sourceID, machine, "", Rollup, RolledBack,
                                         Regressed(w, look.sigma), NO_GATE, w.latest, 0.0, 0, 0));
      if seams.dryRun { return; }
      if seams.writer.None? { return summary, Some(WriterMissing); }
      err := Append(rollback);
    }

    method Run(opts: Options) returns (summary: Summary, err: Option<RunError>)
      modifies this
      ensures RunState(summary, Here(), err) == RunOf(seams, opts, old(Here()))
    {
      hide CandidateStep, RollbackStep, EffectiveCriteria, EffectiveWindow, EffectiveSigma, Machines;
      ghost var w0 := Here();
      var criteria := EffectiveCriteria(opts.criteria);
      var window := EffectiveWindow(opts.window);
      var sigma := EffectiveSigma(opts.sigma);
      var now := Now();
      summary, err := EMPTY_SUMMARY, None;
      ghost var mid := AfterCandidates(seams, opts, w0);
      for i := 0 to |opts.candidates|
        invariant err.None?
        invariant CandidatePass(seams, criteria, opts.history, opts.candidates[i..], RunState(summary, Here(), err)) == mid
      {
        assert opts.candidates[i..][0] == opts.candidates[i] && opts.candidates[i..][1..] == opts.candidates[i + 1..];
        summary, err := PromoteOne(criteria, opts.history, opts.candidates[i], summary);
        if err.Some? { return; }
      }

      var look := Lookback(opts.rollups, opts.history, now - window, now, sigma);
      var machines := DistinctMachines(opts.rollups);
      for i := 0 to |machines|
        invariant err.None?
        invariant RollbackPass(seams, look, machines[i..], RunState(summary, Here(), err)) == RunOf(seams, opts, w0)
      {
        assert machines[i..][0] == machines[i] && machines[i..][1..] == machines[i + 1..];
        summary, err := RollBackMachine(look, machines[i], summary);
        if err.Some? { return; }
      }
    }
  }
}
