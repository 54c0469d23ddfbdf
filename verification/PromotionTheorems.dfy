/** What every run of the promoter keeps, and what holds across runs. */
module PromotionTheorems {
  import opened Wrappers
  import opened Capsules
  import opened KpiWindow
  import opened KpiTheorems
  import opened Promotion
  import opened Sorting

  // ---------------------------------------------------------------- history lookups

  /**
   Deduplication and rollback correlation read the history in the same way: a promotion is found
   exactly when one is recorded, and the one found is a most recent one.
   */
  lemma {:induction false} FoundIffRecorded(prior: seq<Capsule>, id: string)
    ensures LatestPromotion(prior, id).Some? <==> Recorded(prior, id)
    ensures var best := LatestPromotion(prior, id);
            best.Some? ==>
              && best.value in prior && Promotes(best.value, id)
              && forall i :: 0 <= i < |prior| && Promotes(prior[i], id) ==> prior[i].createdAt <= best.value.createdAt
  {
    if prior != [] {
      var n := |prior| - 1;
      var init := prior[..n];
      FoundIffRecorded(init, id);
      assert forall i :: 0 <= i < n ==> prior[i] == init[i];
      if Recorded(init, id) {
        var i :| 0 <= i < |init| && Promotes(init[i], id);
        assert Promotes(prior[i], id);
      }
    }
  }

  predicate HasRollup(caps: seq<Capsule>, machine: string) {
    exists i :: 0 <= i < |caps| && caps[i].kind == Rollup && caps[i].machine == machine
  }

  lemma HasRollupAppend(init: seq<Capsule>, c: Capsule, machine: string)
    ensures HasRollup(init + [c], machine) <==> HasRollup(init, machine) || (c.kind == Rollup && c.machine == machine)
  {
    var caps := init + [c];
    if i :| 0 <= i < |init| && init[i].kind == Rollup && init[i].machine == machine {
      assert caps[i] == init[i];
    }
    assert caps[|init|] == c;
  }

  /** The rollback pass visits every named machine that has a rollup, each once. */
  lemma {:induction false} MachinesOnce(caps: seq<Capsule>)
    ensures Distinct(Machines(caps))
    ensures forall m :: m in Machines(caps) <==> m != "" && HasRollup(caps, m)
  {
    if caps != [] {
      var n := |caps| - 1;
      MachinesOnce(caps[..n]);
      assert caps == caps[..n] + [caps[n]];
      forall m ensures m in Machines(caps) <==> m != "" && HasRollup(caps, m) {
        HasRollupAppend(caps[..n], caps[n], m);
      }
    }
  }

  // ---------------------------------------------------------------- the decisions of a run

  function Uses(seams: Seams, crit: Criteria, history: seq<Capsule>, c: Capsule): nat {
    if Eligible(c, crit, history) && seams.gate.Some? then 1 else 0
  }

  /** Gate calls made for a list of candidates. */
  function GateUses(seams: Seams, crit: Criteria, history: seq<Capsule>, cands: seq<Capsule>): nat {
    if cands == [] then 0
    else Uses(seams, crit, history, cands[0]) + GateUses(seams, crit, history, cands[1..])
  }

  function Verdicts(seams: Seams, crit: Criteria, history: seq<Capsule>, call: nat, cands: seq<Capsule>): (ds: seq<Decision>)
    ensures |ds| == |cands|
    decreases cands
  {
    if cands == [] then []
    else [Verdict(seams, crit, history, call, cands[0])] +
         Verdicts(seams, crit, history, call + Uses(seams, crit, history, cands[0]), cands[1..])
  }

  /** The i-th decision is about the i-th candidate, gated by the call its predecessors leave open. */
  lemma {:induction false} VerdictAt(seams: Seams, crit: Criteria, history: seq<Capsule>, call: nat, cands: seq<Capsule>, i: nat)
    requires i < |cands|
    ensures Verdicts(seams, crit, history, call, cands)[i] ==
            Verdict(seams, crit, history, call + GateUses(seams, crit, history, cands[..i]), cands[i])
    decreases i
  {
    hide Verdict, Uses;
    if i > 0 {
      VerdictAt(seams, crit, history, call + Uses(seams, crit, history, cands[0]), cands[1..], i - 1);
      assert cands[..i][1..] == cands[1..][..i - 1];
    }
  }

  /** The machines a rollback is issued for. */
  function Fired(look: Lookback, machines: seq<string>): (r: seq<string>)
    ensures forall m :: m in r ==> m in machines && look.Fires(m)
  {
    if machines == [] then []
    else (if look.Fires(machines[0]) then [machines[0]] else []) + Fired(look, machines[1..])
  }

  function RollbackDecisions(seams: Seams, look: Lookback, machines: seq<string>): (ds: seq<Decision>)
    ensures |ds| == |machines|
    ensures forall i :: 0 <= i < |ds| ==> ds[i] == RollbackDecision(seams, look, machines[i])
  {
    Map(DecisionFor(seams, look), machines)
  }

  function DecisionFor(seams: Seams, look: Lookback): string -> Decision {
    m => RollbackDecision(seams, look, m)
  }

  function Map<A, B>(f: A -> B, xs: seq<A>): (ys: seq<B>)
    ensures |ys| == |xs|
    ensures forall i :: 0 <= i < |xs| ==> ys[i] == f(xs[i])
  {
    seq(|xs|, i requires 0 <= i < |xs| => f(xs[i]))
  }

  lemma MapCons<A, B>(f: A -> B, x: A, xs: seq<A>)
    ensures Map(f, [x] + xs) == [f(x)] + Map(f, xs)
  {
  }

  function Count(ds: seq<Decision>, state: DecisionState): nat {
    if ds == [] then 0 else Count(ds[..|ds| - 1], state) + if ds[|ds| - 1].state == state then 1 else 0
  }

  /** The four counters are the numbers of decisions in each state. */
  predicate Tallied(s: Summary) {
    && s.promoted == Count(s.decisions, Promoted)
    && s.skipped == Count(s.decisions, Skipped)
    && s.failed == Count(s.decisions, GateFailed)
    && s.rollbacks == Count(s.decisions, RolledBack)
  }

  lemma TallyKeeps(s: Summary, d: Decision)
    requires Tallied(s)
    ensures Tallied(Tally(s, d))
  {
    assert (s.decisions + [d])[..|s.decisions|] == s.decisions;
  }

  lemma {:induction false} CountTotal(ds: seq<Decision>)
    ensures Count(ds, Promoted) + Count(ds, Skipped) + Count(ds, GateFailed) + Count(ds, RolledBack) == |ds|
  {
    if ds != [] { CountTotal(ds[..|ds| - 1]); }
  }

  lemma ConsTake<T>(x: T, xs: seq<T>, k: nat, base: seq<T>)
    requires k <= |xs|
    ensures (base + [x]) + xs[..k] == base + ([x] + xs)[..k + 1]
  {
  }

  lemma CandidateStepSummary(seams: Seams, crit: Criteria, history: seq<Capsule>, c: Capsule, s: RunState)
    ensures var t := CandidateStep(seams, crit, history, c, s);
            var d := Verdict(seams, crit, history, s.world.gateCalls, c);
            && (t.summary == s.summary || t.summary == Tally(s.summary, d))
            && (t.err.None? ==> t.summary == Tally(s.summary, d) &&
                                t.world.gateCalls == s.world.gateCalls + Uses(seams, crit, history, c))
  {
  }

  lemma {:induction false} CandidatePassTallies(seams: Seams, crit: Criteria, history: seq<Capsule>, cands: seq<Capsule>, s: RunState)
    requires Tallied(s.summary)
    ensures Tallied(CandidatePass(seams, crit, history, cands, s).summary)
    decreases cands
  {
    if cands != [] && s.err.None? {
      CandidateStepSummary(seams, crit, history, cands[0], s);
      TallyKeeps(s.summary, Verdict(seams, crit, history, s.world.gateCalls, cands[0]));
      CandidatePassTallies(seams, crit, history, cands[1..], CandidateStep(seams, crit, history, cands[0], s));
    }
  }

  lemma {:induction false} CandidatePassDecisions(seams: Seams, crit: Criteria, history: seq<Capsule>, cands: seq<Capsule>, s: RunState)
    returns (k: nat)
    requires s.err.None?
    ensures k <= |cands|
    ensures var t := CandidatePass(seams, crit, history, cands, s);
            && t.summary.decisions == s.summary.decisions + Verdicts(seams, crit, history, s.world.gateCalls, cands)[..k]
            && (t.err.None? ==> k == |cands|)
    decreases cands
  {
    hide CandidateStep, Verdict, Uses, Tallied;
    k := 0;
    if cands != [] {
      var t := CandidateStep(seams, crit, history, cands[0], s);
      CandidateStepSummary(seams, crit, history, cands[0], s);
      var rest := 0;
      if t.err.None? { rest := CandidatePassDecisions(seams, crit, history, cands[1..], t); }
      if t.summary != s.summary {
        k := rest + 1;
        ConsTake(Verdict(seams, crit, history, s.world.gateCalls, cands[0]),
                 Verdicts(seams, crit, history, s.world.gateCalls + Uses(seams, crit, history, cands[0]), cands[1..]),
                 rest, s.summary.decisions);
      }
    }
  }

  lemma RollbackStepSummary(seams: Seams, look: Lookback, machine: string, s: RunState)
    ensures var t := RollbackStep(seams, look, machine, s);
            var d := RollbackDecision(seams, look, machine);
            && (t.summary == s.summary || (look.Fires(machine) && t.summary == Tally(s.summary, d)))
            && (t.err.None? ==> t.summary == if look.Fires(machine) then Tally(s.summary, d) else s.summary)
  {
  }

  lemma {:induction false} RollbackPassTallies(seams: Seams, look: Lookback, machines: seq<string>, s: RunState)
    requires Tallied(s.summary)
    ensures Tallied(RollbackPass(seams, look, machines, s).summary)
    decreases machines
  {
    if machines != [] && s.err.None? {
      RollbackStepSummary(seams, look, machines[0], s);
      TallyKeeps(s.summary, RollbackDecision(seams, look, machines[0]));
      RollbackPassTallies(seams, look, machines[1..], RollbackStep(seams, look, machines[0], s));
    }
  }

  lemma FiredFirst(seams: Seams, look: Lookback, machines: seq<string>)
    requires machines != []
    ensures RollbackDecisions(seams, look, Fired(look, machines)) ==
            (if look.Fires(machines[0]) then [RollbackDecision(seams, look, machines[0])] else []) +
            RollbackDecisions(seams, look, Fired(look, machines[1..]))
    ensures |Fired(look, machines)| == (if look.Fires(machines[0]) then 1 else 0) + |Fired(look, machines[1..])|
  {
    var later := Fired(look, machines[1..]);
    if look.Fires(machines[0]) {
      MapCons(DecisionFor(seams, look), machines[0], later);
    } else {
      assert [] + later == later;
    }
  }

  lemma {:induction false} RollbackPassDecisions(seams: Seams, look: Lookback, machines: seq<string>, s: RunState)
    returns (l: nat)
    requires s.err.None?
    ensures l <= |Fired(look, machines)|
    ensures var t := RollbackPass(seams, look, machines, s);
            && t.summary.decisions == s.summary.decisions + RollbackDecisions(seams, look, Fired(look, machines))[..l]
            && (t.err.None? ==> l == |Fired(look, machines)|)
    decreases machines
  {
    assert machines == [] ==> Fired(look, machines) == [];
    hide RollbackStep, RollbackDecision, Fired, RollbackDecisions;
    l := 0;
    if machines != [] {
      var t := RollbackStep(seams, look, machines[0], s);
      RollbackStepSummary(seams, look, machines[0], s);
      FiredFirst(seams, look, machines);
      var later := RollbackDecisions(seams, look, Fired(look, machines[1..]));
      var rest := 0;
      if t.err.None? { rest := RollbackPassDecisions(seams, look, machines[1..], t); }
      if t.summary != s.summary {
        ConsTake(RollbackDecision(seams, look, machines[0]), later, rest, s.summary.decisions);
        l := rest + 1;
      } else {
        assert [] + later == later;
        l := rest;
      }
    }
  }

  /** The decisions of a run: k verdicts on the candidates, in order, then l rollbacks of firing machines. */
  ghost predicate Decided(seams: Seams, opts: Options, w: World, ds: seq<Decision>, k: nat, l: nat)
  {
    && k <= |opts.candidates| && l <= |Firing(seams, opts, w)|
    && ds == AllVerdicts(seams, opts, w)[..k] + AllRollbacks(seams, opts, w)[..l]
  }

  function Firing(seams: Seams, opts: Options, w: World): seq<string> {
    Fired(LookbackOf(seams, opts, w), Machines(opts.rollups))
  }

  function AllVerdicts(seams: Seams, opts: Options, w: World): (ds: seq<Decision>)
    ensures |ds| == |opts.candidates|
  {
    Verdicts(seams, EffectiveCriteria(opts.criteria), opts.history, w.gateCalls, opts.candidates)
  }

  function AllRollbacks(seams: Seams, opts: Options, w: World): (ds: seq<Decision>)
    ensures |ds| == |Firing(seams, opts, w)|
  {
    RollbackDecisions(seams, LookbackOf(seams, opts, w), Firing(seams, opts, w))
  }

  lemma CandidatesDecide(seams: Seams, opts: Options, w: World) returns (k: nat)
    ensures var mid := AfterCandidates(seams, opts, w);
            && k <= |opts.candidates|
            && mid.summary.decisions == AllVerdicts(seams, opts, w)[..k]
            && (mid.err.None? ==> k == |opts.candidates|)
            && Tallied(mid.summary)
  {
    var crit := EffectiveCriteria(opts.criteria);
    CandidatePassTallies(seams, crit, opts.history, opts.candidates, StartOf(w));
    k := CandidatePassDecisions(seams, crit, opts.history, opts.candidates, StartOf(w));
  }

  lemma RunDecides(seams: Seams, opts: Options, w: World) returns (r: RunState, k: nat, l: nat)
    ensures r == RunOf(seams, opts, w) && Tallied(r.summary)
    ensures Decided(seams, opts, w, r.summary.decisions, k, l)
    ensures r.err.None? ==> k == |opts.candidates| && l == |Firing(seams, opts, w)|
  {
    var look := LookbackOf(seams, opts, w);
    var mid := AfterCandidates(seams, opts, w);
    k := CandidatesDecide(seams, opts, w);
    l := 0;
    RollbackPassTallies(seams, look, Machines(opts.rollups), mid);
    if mid.err.None? { l := RollbackPassDecisions(seams, look, Machines(opts.rollups), mid); }
    r := RollbackPass(seams, look, Machines(opts.rollups), mid);
  }

  lemma DecidedBounds(seams: Seams, opts: Options, w: World, ds: seq<Decision>, k: nat, l: nat)
    requires Decided(seams, opts, w, ds, k, l)
    ensures k <= |opts.candidates| && k <= |ds|
  {
  }

  /** The first k decisions are about the candidates. */
  lemma DecidedVerdict(seams: Seams, opts: Options, w: World, ds: seq<Decision>, k: nat, l: nat, i: nat)
    requires Decided(seams, opts, w, ds, k, l) && i < k
    ensures i < |ds| && ds[i].state != RolledBack
    ensures var crit := EffectiveCriteria(opts.criteria);
            var call := w.gateCalls + GateUses(seams, crit, opts.history, opts.candidates[..i]);
            ds[i] == Verdict(seams, crit, opts.history, call, opts.candidates[i])
  {
    hide EffectiveCriteria, Eligible, GateUses, Verdict, Fired, LookbackOf, RollbackDecisions, Verdicts;
    VerdictAt(seams, EffectiveCriteria(opts.criteria), opts.history, w.gateCalls, opts.candidates, i);
    VerdictNames(seams, EffectiveCriteria(opts.criteria), opts.history,
                 w.gateCalls + GateUses(seams, EffectiveCriteria(opts.criteria), opts.history, opts.candidates[..i]), opts.candidates[i]);
    assert ds[i] == AllVerdicts(seams, opts, w)[i];
  }

  /** The others are rollbacks. */
  lemma DecidedRollback(seams: Seams, opts: Options, w: World, ds: seq<Decision>, k: nat, l: nat, i: nat)
    requires Decided(seams, opts, w, ds, k, l) && k <= i < |ds|
    ensures i - k < |Firing(seams, opts, w)|
    ensures ds[i] == RollbackDecision(seams, LookbackOf(seams, opts, w), Firing(seams, opts, w)[i - k])
    ensures ds[i].state == RolledBack
  {
    hide WindowOf, LatestRollup;
    assert ds[i] == AllRollbacks(seams, opts, w)[i - k];
  }

  /** `k` decisions about candidates come before all rollbacks. */
  predicate SplitAt(ds: seq<Decision>, k: int) {
    0 <= k <= |ds| && forall i :: 0 <= i < |ds| ==> (ds[i].state == RolledBack <==> i >= k)
  }

  lemma {:induction false} CountSplit(ds: seq<Decision>, k: nat)
    requires SplitAt(ds, k)
    ensures Count(ds, RolledBack) == |ds| - k
  {
    if ds != [] {
      var n := |ds| - 1;
      CountSplit(ds[..n], if k == |ds| then n else k);
    }
  }

  lemma SplitPoint(s: Summary, k: nat)
    requires Tallied(s) && SplitAt(s.decisions, k)
    ensures k == s.promoted + s.skipped + s.failed
    ensures k + s.rollbacks == |s.decisions|
  {
    CountTotal(s.decisions);
    CountSplit(s.decisions, k);
  }

  /** The same run seen through the summary: `k` is what its counters say. */
  lemma RunSplits(seams: Seams, opts: Options, w: World) returns (r: RunState, k: nat, l: nat)
    ensures r == RunOf(seams, opts, w) && Tallied(r.summary)
    ensures Decided(seams, opts, w, r.summary.decisions, k, l)
    ensures r.err.None? ==> k == |opts.candidates| && l == |Firing(seams, opts, w)|
    ensures SplitAt(r.summary.decisions, k)
    ensures k == r.summary.promoted + r.summary.skipped + r.summary.failed
    ensures k + r.summary.rollbacks == |r.summary.decisions|
  {
    r, k, l := RunDecides(seams, opts, w);
    forall i | 0 <= i < |r.summary.decisions| ensures r.summary.decisions[i].state == RolledBack <==> i >= k {
      if i < k {
        DecidedVerdict(seams, opts, w, r.summary.decisions, k, l, i);
      } else {
        DecidedRollback(seams, opts, w, r.summary.decisions, k, l, i);
      }
    }
    SplitPoint(r.summary, k);
  }

  /**
   The books balance. The counters count the decisions; the decisions are aligned with the
   candidates; an error-free run has one decision for every candidate.
   */
  lemma RunAccounts(seams: Seams, opts: Options, w: World)
    ensures var r := RunOf(seams, opts, w);
            var s := r.summary;
            var k := s.promoted + s.skipped + s.failed;
            && Tallied(s)
            && k + s.rollbacks == |s.decisions|
            && k <= |opts.candidates|
            && (r.err.None? ==> k == |opts.candidates|)
            && SplitAt(s.decisions, k)
            && (forall i :: 0 <= i < k ==> s.decisions[i].capsuleID == opts.candidates[i].id)
  {
    hide RunOf, Verdict, Tallied, GateUses, EffectiveCriteria;
    var r, k, l := RunSplits(seams, opts, w);
    DecidedBounds(seams, opts, w, r.summary.decisions, k, l);
    hide Decided;
    forall i | 0 <= i < k ensures r.summary.decisions[i].capsuleID == opts.candidates[i].id {
      DecidedVerdict(seams, opts, w, r.summary.decisions, k, l, i);
      VerdictNames(seams, EffectiveCriteria(opts.criteria), opts.history,
                   w.gateCalls + GateUses(seams, EffectiveCriteria(opts.criteria), opts.history, opts.candidates[..i]), opts.candidates[i]);
    }
  }

  /** When each state is reached, and that the gate runs once per eligible candidate, in order. */
  lemma DecisionMeaning(seams: Seams, opts: Options, w: World, i: nat)
    requires var s := RunOf(seams, opts, w).summary; i < s.promoted + s.skipped + s.failed
    ensures var s := RunOf(seams, opts, w).summary;
            var crit := EffectiveCriteria(opts.criteria);
            i < |opts.candidates| && i < |s.decisions| &&
            var c, d := opts.candidates[i], s.decisions[i];
            var outcome := GateOf(seams, w.gateCalls + GateUses(seams, crit, opts.history, opts.candidates[..i]), c);
            && d.capsuleID == c.id
            && (d.state == Skipped <==> !Eligible(c, crit, opts.history))
            && (d.state == Promoted <==>
                Eligible(c, crit, opts.history) && outcome.Ran? && outcome.result.exitCode == 0)
  {
    var r, k, l := RunSplits(seams, opts, w);
    DecidedVerdict(seams, opts, w, r.summary.decisions, k, l, i);
  }

  // ---------------------------------------------------------------- promotions against rollbacks

  /** No capsule is both promoted and rolled back in one run. */
  lemma NoPromoteAndRollBack(seams: Seams, opts: Options, w: World, i: nat, j: nat)
    requires var ds := RunOf(seams, opts, w).summary.decisions;
             i < |ds| && j < |ds| && ds[i].state == Promoted && ds[j].state == RolledBack
    ensures var ds := RunOf(seams, opts, w).summary.decisions;
            ds[i].capsuleID != ds[j].capsuleID
  {
    var r, k, l := RunSplits(seams, opts, w);
    DecisionMeaning(seams, opts, w, i);
    RollbackMeaning(seams, opts, w, j);
    FoundIffRecorded(opts.history, r.summary.decisions[j].capsuleID);
  }

  /**
   A rollback names the latest in-window rollup of its machine, that rollup regressed, and the
   history holds the promotion being invalidated.
   */
  lemma RollbackMeaning(seams: Seams, opts: Options, w: World, j: nat)
    requires var ds := RunOf(seams, opts, w).summary.decisions; j < |ds| && ds[j].state == RolledBack
    ensures var d := RunOf(seams, opts, w).summary.decisions[j];
            var look := LookbackOf(seams, opts, w);
            && d.machine in Machines(opts.rollups)
            && d.capsuleID == look.Source(d.machine).id
            && IsRegression(look.Window(d.machine), look.sigma)
            && LatestPromotion(opts.history, d.capsuleID).Some?
            && LatestPromotion(opts.history, d.capsuleID).value in opts.history
            && Promotes(LatestPromotion(opts.history, d.capsuleID).value, d.capsuleID)
  {
    var r, k, l := RunSplits(seams, opts, w);
    var d := r.summary.decisions[j];
    DecidedRollback(seams, opts, w, r.summary.decisions, k, l, j);
    var look := LookbackOf(seams, opts, w);
    assert Firing(seams, opts, w)[j - k] in Fired(look, Machines(opts.rollups));
    FoundIffRecorded(opts.history, d.capsuleID);
  }

  lemma {:induction false} FiredOnce(look: Lookback, machines: seq<string>)
    requires Distinct(machines)
    ensures Distinct(Fired(look, machines))
  {
    if machines != [] {
      var later := Fired(look, machines[1..]);
      FiredOnce(look, machines[1..]);
      forall i | 0 <= i < |later| ensures later[i] != machines[0] {
        assert later[i] in machines[1..];
      }
    }
  }

  /** At most one rollback per machine. */
  lemma OneRollbackPerMachine(seams: Seams, opts: Options, w: World, i: nat, j: nat)
    requires var ds := RunOf(seams, opts, w).summary.decisions;
             i < j < |ds| && ds[i].state == RolledBack && ds[j].state == RolledBack
    ensures var ds := RunOf(seams, opts, w).summary.decisions; ds[i].machine != ds[j].machine
  {
    var r, k, l := RunSplits(seams, opts, w);
    MachinesOnce(opts.rollups);
    FiredOnce(LookbackOf(seams, opts, w), Machines(opts.rollups));
    DecidedRollback(seams, opts, w, r.summary.decisions, k, l, i);
    DecidedRollback(seams, opts, w, r.summary.decisions, k, l, j);
  }

  /** The window is not flat and its n samples meet sigma^2 * n <= (n-1)^2. */
  predicate Evident(look: Lookback, machine: string) {
    var win := look.Window(machine);
    win.variance > 0.0 && Square(look.sigma) * win.samples as real <= Square((win.samples - 1) as real)
  }

  /** The rolled back capsule is the zero capsule exactly when nothing in its window is dated. */
  lemma RollbackDated(seams: Seams, opts: Options, w: World, j: nat)
    requires var ds := RunOf(seams, opts, w).summary.decisions; j < |ds| && ds[j].state == RolledBack
    ensures var d, look := RunOf(seams, opts, w).summary.decisions[j], LookbackOf(seams, opts, w);
            !Dated(Selected(opts.rollups, d.machine, look.from, look.to)) ==> d.capsuleID == "" && Recorded(opts.history, "")
  {
    hide RunOf, Machines, IsRegression, WindowOf, LatestRollup, LatestPromotion, Recorded, Dated, Selected;
    RollbackMeaning(seams, opts, w, j);
    MachinesOnce(opts.rollups);
    var d, look := RunOf(seams, opts, w).summary.decisions[j], LookbackOf(seams, opts, w);
    TwoScansAgree(opts.rollups, d.machine, look.from, look.to);
    FoundIffRecorded(opts.history, d.capsuleID);
  }

  /**
   A rollback of a capsule with an id rests on enough evidence: its window holds n samples with
   sigma^2 * n <= (n-1)^2, so at least three when sigma is left at its default.
   */
  lemma RollbackEvidence(seams: Seams, opts: Options, w: World, j: nat)
    requires var ds := RunOf(seams, opts, w).summary.decisions; j < |ds| && ds[j].state == RolledBack && ds[j].capsuleID != ""
    ensures var look, machine := LookbackOf(seams, opts, w), RunOf(seams, opts, w).summary.decisions[j].machine;
            Evident(look, machine) && (opts.sigma <= 0.0 ==> look.Window(machine).samples >= 3)
  {
    hide RunOf, IsRegression, WindowOf, LatestRollup, LatestPromotion, Dated, Selected, Square;
    RollbackMeaning(seams, opts, w, j);
    RollbackDated(seams, opts, w, j);
    var look := LookbackOf(seams, opts, w);
    var machine := RunOf(seams, opts, w).summary.decisions[j].machine;
    RegressionNeedsSamples(opts.rollups, machine, look.from, look.to, look.sigma);
    if opts.sigma <= 0.0 { DefaultSigmaNeedsThreeSamples(opts.rollups, machine, look.from, look.to); }
  }

  /**
   Without an id it need not: two equal positive undated readings of any machine roll back the
   promotion of the empty id, if the history holds one.
   */
  lemma RollbackWithoutEvidence(seams: Seams, opts: Options, w: World, a: Capsule)
    requires opts.rollups == [a, a] && ReachesRollbacks(seams, opts, w)
    requires a.kind == Rollup && a.machine != "" && a.createdAt == ZERO_TIME && a.lastKPI > 0.0
    requires Recorded(opts.history, "")
    ensures var ds, look := RunOf(seams, opts, w).summary.decisions, LookbackOf(seams, opts, w);
            ds != [] && var d := ds[|ds| - 1];
            d.state == RolledBack && d.machine == a.machine && d.capsuleID == "" && !Evident(look, a.machine)
  {
    hide IsRegression, WindowOf, LatestRollup, LatestPromotion, Recorded, Dated, Selected, BuildRollbackCapsule, Square, AfterCandidates;
    var look := LookbackOf(seams, opts, w);
    UndatedPairRegresses(a, a.machine, look.from, look.to, look.sigma);
    TwoScansAgree(opts.rollups, a.machine, look.from, look.to);
    FoundIffRecorded(opts.history, "");
    MachinesOfPair(a);
    var s := AfterCandidates(seams, opts, w);
    assert look.Fires(a.machine);
    assert [a.machine][1..] == [];
    var t := RollbackStep(seams, look, a.machine, s);
    assert RollbackPass(seams, look, [], t) == t;
    assert RunOf(seams, opts, w) == t;
    assert t.summary.decisions == s.summary.decisions + [RollbackDecision(seams, look, a.machine)];
  }

  /** The candidate pass ends without error and the context is still alive. */
  predicate ReachesRollbacks(seams: Seams, opts: Options, w: World) {
    var s := AfterCandidates(seams, opts, w);
    s.err.None? && seams.ctxErr(s.world.checks).None?
  }

  lemma MachinesOfPair(a: Capsule)
    requires a.kind == Rollup && a.machine != ""
    ensures Machines([a, a]) == [a.machine]
  {
    assert [a, a][..1] == [a] && [a][..0] == [];
    assert Machines([a]) == [] + [a.machine];
  }

  /**
   Exactly when every rollback rests on evidence, whatever the rollups are, in a run that gets as
   far as the rollback pass: when the history holds no promotion of the empty id.
   */
  lemma EvidenceIff(seams: Seams, opts: Options, w: World)
    requires ReachesRollbacks(seams, opts, w)
    ensures (forall rollups, j: nat :: !Unfounded(seams, opts.(rollups := rollups), w, j)) <==> !Recorded(opts.history, "")
  {
    hide RunOf, Recorded, Evident, CandidatePass;
    if Recorded(opts.history, "") {
      var a := Capsule("", Rollup, "m", "", ZERO_TIME, None, 0, 0, 0.0, 1.0);
      var o := opts.(rollups := [a, a]);
      RollbackWithoutEvidence(seams, o, w, a);
      assert Unfounded(seams, o, w, |RunOf(seams, o, w).summary.decisions| - 1);
    } else {
      forall rollups, j: nat | Unfounded(seams, opts.(rollups := rollups), w, j) ensures false {
        var o := opts.(rollups := rollups);
        RollbackMeaning(seams, o, w, j);
        FoundIffRecorded(o.history, RunOf(seams, o, w).summary.decisions[j].capsuleID);
        RollbackEvidence(seams, o, w, j);
      }
    }
  }

  /** The j-th decision is a rollback without evidence. */
  predicate Unfounded(seams: Seams, opts: Options, w: World, j: nat) {
    var ds := RunOf(seams, opts, w).summary.decisions;
    j < |ds| && ds[j].state == RolledBack && !Evident(LookbackOf(seams, opts, w), ds[j].machine)
  }

  // ---------------------------------------------------------------- what reaches the outbox

  datatype Entry = PromotionOf(source: MetaValue) | RollbackOf(promotion: MetaValue)

  function EntryOf(o: OutboxCapsule): Entry {
    if Lookup(o.metadata, Kind) == Named(Promotion) then PromotionOf(Lookup(o.metadata, SourceCapsule))
    else RollbackOf(Lookup(o.metadata, SourcePromotion))
  }

  function Entries(outbox: seq<OutboxCapsule>): (es: seq<Entry>)
    ensures |es| == |outbox|
    ensures forall i :: 0 <= i < |es| ==> es[i] == EntryOf(outbox[i])
  {
    seq(|outbox|, i requires 0 <= i < |outbox| => EntryOf(outbox[i]))
  }

  /** The entries the decisions call for, in order. */
  function Owed(ds: seq<Decision>, history: seq<Capsule>): seq<Entry> {
    if ds == [] then []
    else
      var n := |ds| - 1;
      Owed(ds[..n], history) + OwedBy(ds[n], history)
  }

  function OwedBy(d: Decision, history: seq<Capsule>): seq<Entry> {
    match d.state
    case Promoted => [PromotionOf(Text(d.capsuleID))]
    case RolledBack =>
      var promo := LatestPromotion(history, d.capsuleID);
      if promo.Some? then [RollbackOf(Text(promo.value.id))] else []
    case _ => []
  }

  lemma OwedAppend(ds: seq<Decision>, d: Decision, history: seq<Capsule>)
    ensures Owed(ds + [d], history) == Owed(ds, history) + OwedBy(d, history)
  {
    assert (ds + [d])[..|ds|] == ds;
  }

  /**
   What is written for a promotion counts as one of its source, and is recognised as such, and as
   no other, once a capsule with its metadata is read back.
   */
  lemma WrittenPromotes(d: Decision, source: Capsule, user: string, ts: Time, fmt: Format)
    ensures var written := BuildPromotionCapsule(d, source, user, ts, fmt);
            && EntryOf(written) == PromotionOf(Text(source.id))
            && forall c: Capsule, id | c.metadata == Some(written.metadata) :: Promotes(c, id) <==> id == source.id
  {
  }

  lemma BuiltRollback(id: string, w: RegressionWindow, sigma: real, user: string, ts: Time, fmt: Format)
    ensures EntryOf(BuildRollbackCapsule(id, w, sigma, user, ts, fmt)) == RollbackOf(Text(id))
  {
  }

  /** On top of `base` the outbox has received everything owed, or a failed run stopped one entry short. */
  predicate Settled(outbox: seq<OutboxCapsule>, base: seq<Entry>, owed: seq<Entry>, err: Option<RunError>) {
    || Entries(outbox) == base + owed
    || (err.Some? && owed != [] && Entries(outbox) == base + owed[..|owed| - 1])
  }

  /** `base` is what the outbox held before the run. */
  ghost predicate Paid(base: seq<Entry>, history: seq<Capsule>, s: RunState) {
    Settled(s.world.outbox, base, Owed(s.summary.decisions, history), s.err)
  }

  lemma WriteSettles(seams: Seams, s: RunState, cap: OutboxCapsule, base: seq<Entry>, owed: seq<Entry>)
    requires seams.writer.Some? && Entries(s.world.outbox) == base + owed
    ensures Settled(Write(seams, s, cap).world.outbox, base, owed + [EntryOf(cap)], Write(seams, s, cap).err)
  {
    var more := owed + [EntryOf(cap)];
    assert more[..|more| - 1] == owed;
    assert Entries(s.world.outbox + [cap]) == base + more;
  }

  lemma VerdictNames(seams: Seams, crit: Criteria, history: seq<Capsule>, call: nat, c: Capsule)
    ensures var d := Verdict(seams, crit, history, call, c); d.capsuleID == c.id && d.state != RolledBack
  {
  }

  lemma CandidateStepPays(seams: Seams, crit: Criteria, history: seq<Capsule>, c: Capsule, s: RunState, base: seq<Entry>)
    requires !seams.dryRun && s.err.None? && Paid(base, history, s)
    ensures Paid(base, history, CandidateStep(seams, crit, history, c, s))
  {
    hide BuildPromotionCapsule, Owed, Entries, EntryOf, Verdict;
    var mid := Decide(seams, crit, history, c, s);
    var d := Verdict(seams, crit, history, s.world.gateCalls, c);
    VerdictNames(seams, crit, history, s.world.gateCalls, c);
    var owed := Owed(s.summary.decisions, history);
    OwedAppend(s.summary.decisions, d, history);
    if d.state == Promoted && seams.writer.Some? {
      var ts := seams.now(mid.world.clockReads);
      WrittenPromotes(d, c, seams.userID, ts, seams.fmt);
      WriteSettles(seams, mid, BuildPromotionCapsule(d, c, seams.userID, ts, seams.fmt), base, owed);
    } else if d.state == Promoted {
      assert (owed + [PromotionOf(Text(c.id))])[..|owed|] == owed;
    } else {
      assert owed + [] == owed;
    }
  }

  lemma {:induction false} CandidatePassPays(seams: Seams, crit: Criteria, history: seq<Capsule>, cands: seq<Capsule>, s: RunState, base: seq<Entry>)
    requires !seams.dryRun && s.err.None? && Paid(base, history, s)
    ensures Paid(base, history, CandidatePass(seams, crit, history, cands, s))
  {
    if cands != [] {
      CandidateStepPays(seams, crit, history, cands[0], s, base);
      var t := CandidateStep(seams, crit, history, cands[0], s);
      if t.err.None? {
        CandidatePassPays(seams, crit, history, cands[1..], t, base);
      } else {
        assert CandidatePass(seams, crit, history, cands[1..], t) == t;
      }
    }
  }

  lemma RollbackStepPays(seams: Seams, look: Lookback, machine: string, s: RunState, base: seq<Entry>)
    requires !seams.dryRun && s.err.None? && Paid(base, look.history, s)
    ensures Paid(base, look.history, RollbackStep(seams, look, machine, s))
  {
    hide WindowOf, LatestRollup, IsRegression, BuildRollbackCapsule, Owed, Entries, EntryOf;
    var d := RollbackDecision(seams, look, machine);
    var t := RollbackStep(seams, look, machine, s);
    var owed := Owed(s.summary.decisions, look.history);
    if !Check(seams, s).err.Some? && look.Fires(machine) {
      OwedAppend(s.summary.decisions, d, look.history);
      var promo := look.Target(machine).value;
      if seams.writer.None? {
        assert (owed + [RollbackOf(Text(promo.id))])[..|owed|] == owed;
      } else {
        var mid := Check(seams, s).(summary := Tally(s.summary, d));
        var ts := seams.now(s.world.clockReads);
        var cap := BuildRollbackCapsule(promo.id, look.Window(machine), look.sigma, seams.userID, ts, seams.fmt);
        BuiltRollback(promo.id, look.Window(machine), look.sigma, seams.userID, ts, seams.fmt);
        WriteSettles(seams, mid, cap, base, owed);
      }
    }
  }

  lemma {:induction false} RollbackPassPays(seams: Seams, look: Lookback, machines: seq<string>, s: RunState, base: seq<Entry>)
    requires !seams.dryRun && s.err.None? && Paid(base, look.history, s)
    ensures Paid(base, look.history, RollbackPass(seams, look, machines, s))
  {
    if machines != [] {
      RollbackStepPays(seams, look, machines[0], s, base);
      var t := RollbackStep(seams, look, machines[0], s);
      if t.err.None? {
        RollbackPassPays(seams, look, machines[1..], t, base);
      } else {
        assert RollbackPass(seams, look, machines[1..], t) == t;
      }
    }
  }

  /**
   A wet run writes exactly what its decisions call for, in their order: a promotion capsule for
   each promoted candidate, then a rollback capsule for each rollback. A run that ends in an error
   may have decided one thing more than it wrote.
   */
  lemma WritesFollowDecisions(seams: Seams, opts: Options, w: World)
    requires !seams.dryRun
    ensures var r := RunOf(seams, opts, w);
            Settled(r.world.outbox, Entries(w.outbox), Owed(r.summary.decisions, opts.history), r.err)
  {
    var base := Entries(w.outbox);
    assert base + [] == base;
    CandidatePassPays(seams, EffectiveCriteria(opts.criteria), opts.history, opts.candidates, StartOf(w), base);
    var mid := AfterCandidates(seams, opts, w);
    if mid.err.None? {
      RollbackPassPays(seams, LookbackOf(seams, opts, w), Machines(opts.rollups), mid, base);
    }
  }

  // ---------------------------------------------------------------- dry run against wet run

  /** The two runs have decided the same and used gate and context equally often. */
  predicate InStep(dry: RunState, wet: RunState) {
    && dry.summary == wet.summary && dry.err == wet.err
    && dry.world.gateCalls == wet.world.gateCalls && dry.world.checks == wet.world.checks
  }

  ghost predicate NeverFails(seams: Seams) {
    seams.writer.Some? && forall k, c :: seams.writer.value(k, c) == None
  }

  lemma {:induction false} CandidatePassInStep(dry: Seams, wet: Seams, crit: Criteria, history: seq<Capsule>, cands: seq<Capsule>, s: RunState, t: RunState)
    requires dry == wet.(dryRun := true) && !wet.dryRun && NeverFails(wet) && InStep(s, t)
    ensures var s', t' := CandidatePass(dry, crit, history, cands, s), CandidatePass(wet, crit, history, cands, t);
            InStep(s', t') && s'.world.outbox == s.world.outbox
  {
    if cands != [] && s.err.None? {
      var d := Verdict(dry, crit, history, s.world.gateCalls, cands[0]);
      assert d == Verdict(wet, crit, history, t.world.gateCalls, cands[0]);
      CandidatePassInStep(dry, wet, crit, history, cands[1..],
        CandidateStep(dry, crit, history, cands[0], s), CandidateStep(wet, crit, history, cands[0], t));
    }
  }

  lemma {:induction false} RollbackPassInStep(dry: Seams, wet: Seams, look: Lookback, machines: seq<string>, s: RunState, t: RunState)
    requires dry == wet.(dryRun := true) && !wet.dryRun && NeverFails(wet) && InStep(s, t)
    ensures var s', t' := RollbackPass(dry, look, machines, s), RollbackPass(wet, look, machines, t);
            InStep(s', t') && s'.world.outbox == s.world.outbox
  {
    if machines != [] && s.err.None? {
      assert RollbackDecision(dry, look, machines[0]) == RollbackDecision(wet, look, machines[0]);
      RollbackPassInStep(dry, wet, look, machines[1..],
        RollbackStep(dry, look, machines[0], s), RollbackStep(wet, look, machines[0], t));
    }
  }

  /**
   A dry run reports what the wet run would do. With a writer that does not fail both return the
   same summary and error, even if gate, clock and context keep state; the dry run leaves the
   outbox alone and the wet run appends exactly what the common summary calls for.
   */
  lemma DryRunPreviewsWetRun(wet: Seams, opts: Options, w: World)
    requires !wet.dryRun && NeverFails(wet)
    ensures var d, r := RunOf(wet.(dryRun := true), opts, w), RunOf(wet, opts, w);
            && d.summary == r.summary && d.err == r.err && d.world.gateCalls == r.world.gateCalls
            && d.world.outbox == w.outbox
            && Entries(r.world.outbox) == Entries(w.outbox) + Owed(d.summary.decisions, opts.history)
  {
    var dry := wet.(dryRun := true);
    var crit := EffectiveCriteria(opts.criteria);
    assert LookbackOf(dry, opts, w) == LookbackOf(wet, opts, w);
    CandidatePassInStep(dry, wet, crit, opts.history, opts.candidates, StartOf(w), StartOf(w));
    RollbackPassInStep(dry, wet, LookbackOf(wet, opts, w), Machines(opts.rollups),
      AfterCandidates(dry, opts, w), AfterCandidates(wet, opts, w));
    WetRunPaysInFull(wet, opts, w);
  }

  /** With a writer that never fails the outbox is never one short, whatever stops the run. */
  ghost predicate PaidInFull(base: seq<Entry>, history: seq<Capsule>, s: RunState) {
    Entries(s.world.outbox) == base + Owed(s.summary.decisions, history)
  }

  lemma CandidateStepFails(wet: Seams, crit: Criteria, history: seq<Capsule>, c: Capsule, s: RunState)
    requires NeverFails(wet) && s.err.None?
    ensures var t := CandidateStep(wet, crit, history, c, s);
            t.err.Some? ==> t.summary == s.summary && t.world.outbox == s.world.outbox
  {
  }

  lemma RollbackStepFails(wet: Seams, look: Lookback, machine: string, s: RunState)
    requires NeverFails(wet) && s.err.None?
    ensures var t := RollbackStep(wet, look, machine, s);
            t.err.Some? ==> t.summary == s.summary && t.world.outbox == s.world.outbox
  {
  }

  lemma {:induction false} CandidatesPaidInFull(wet: Seams, crit: Criteria, history: seq<Capsule>, cands: seq<Capsule>, s: RunState, base: seq<Entry>)
    requires !wet.dryRun && NeverFails(wet) && PaidInFull(base, history, s)
    ensures PaidInFull(base, history, CandidatePass(wet, crit, history, cands, s))
    decreases cands
  {
    if cands != [] && s.err.None? {
      CandidateStepPays(wet, crit, history, cands[0], s, base);
      CandidateStepFails(wet, crit, history, cands[0], s);
      CandidatesPaidInFull(wet, crit, history, cands[1..], CandidateStep(wet, crit, history, cands[0], s), base);
    }
  }

  lemma {:induction false} RollbacksPaidInFull(wet: Seams, look: Lookback, machines: seq<string>, s: RunState, base: seq<Entry>)
    requires !wet.dryRun && NeverFails(wet) && PaidInFull(base, look.history, s)
    ensures PaidInFull(base, look.history, RollbackPass(wet, look, machines, s))
    decreases machines
  {
    if machines != [] && s.err.None? {
      RollbackStepPays(wet, look, machines[0], s, base);
      RollbackStepFails(wet, look, machines[0], s);
      RollbacksPaidInFull(wet, look, machines[1..], RollbackStep(wet, look, machines[0], s), base);
    }
  }

  lemma WetRunPaysInFull(wet: Seams, opts: Options, w: World)
    requires !wet.dryRun && NeverFails(wet)
    ensures var r := RunOf(wet, opts, w);
            Entries(r.world.outbox) == Entries(w.outbox) + Owed(r.summary.decisions, opts.history)
  {
    var base := Entries(w.outbox);
    assert base + [] == base;
    CandidatesPaidInFull(wet, EffectiveCriteria(opts.criteria), opts.history, opts.candidates, StartOf(w), base);
    RollbacksPaidInFull(wet, LookbackOf(wet, opts, w), Machines(opts.rollups), AfterCandidates(wet, opts, w), base);
  }

  // ---------------------------------------------------------------- at most once across runs

  function Promotions(es: seq<Entry>, id: string): nat { multiset(es)[PromotionOf(Text(id))] }

  /** The history a run is given shows every capsule written before it, read back with its metadata. */
  ghost predicate ReadsBack(history: seq<Capsule>, outbox: seq<OutboxCapsule>) {
    forall o :: o in outbox ==> exists i :: 0 <= i < |history| && history[i].metadata == Some(o.metadata)
  }

  /** How many of the candidates are eligible and carry the id. */
  function EligibleCount(cands: seq<Capsule>, crit: Criteria, history: seq<Capsule>, id: string): nat {
    if cands == [] then 0
    else
      var c := cands[|cands| - 1];
      EligibleCount(cands[..|cands| - 1], crit, history, id) + if Eligible(c, crit, history) && c.id == id then 1 else 0
  }

  /** No two eligible candidates share an id. */
  predicate DistinctEligible(opts: Options) {
    var crit := EffectiveCriteria(opts.criteria);
    forall i, j :: 0 <= i < j < |opts.candidates| && Eligible(opts.candidates[i], crit, opts.history) && Eligible(opts.candidates[j], crit, opts.history)
      ==> opts.candidates[i].id != opts.candidates[j].id
  }

  datatype Invocation = Invocation(seams: Seams, opts: Options)

  function RunAll(runs: seq<Invocation>, w: World): World {
    if runs == [] then w else RunAll(runs[1..], RunOf(runs[0].seams, runs[0].opts, w).world)
  }

  /** Every run in the sequence sees what the earlier ones wrote and lists no eligible candidate twice. */
  ghost predicate Informed(runs: seq<Invocation>, w: World) {
    runs != [] ==>
      && ReadsBack(runs[0].opts.history, w.outbox)
      && DistinctEligible(runs[0].opts)
      && Informed(runs[1..], RunOf(runs[0].seams, runs[0].opts, w).world)
  }

  lemma {:induction false} DryPassesWriteNothing(seams: Seams, crit: Criteria, look: Lookback, cands: seq<Capsule>, machines: seq<string>, s: RunState)
    requires seams.dryRun
    ensures CandidatePass(seams, crit, look.history, cands, s).world.outbox == s.world.outbox
    ensures RollbackPass(seams, look, machines, s).world.outbox == s.world.outbox
    decreases |cands| + |machines|
  {
    if cands != [] && s.err.None? {
      DryPassesWriteNothing(seams, crit, look, cands[1..], [], CandidateStep(seams, crit, look.history, cands[0], s));
    }
    if machines != [] && s.err.None? {
      DryPassesWriteNothing(seams, crit, look, [], machines[1..], RollbackStep(seams, look, machines[0], s));
    }
  }

  lemma DryRunWritesNothing(seams: Seams, opts: Options, w: World)
    requires seams.dryRun
    ensures RunOf(seams, opts, w).world.outbox == w.outbox
  {
    var look := LookbackOf(seams, opts, w);
    DryPassesWriteNothing(seams, EffectiveCriteria(opts.criteria), look, opts.candidates, [], StartOf(w));
    DryPassesWriteNothing(seams, EffectiveCriteria(opts.criteria), look, [], Machines(opts.rollups), AfterCandidates(seams, opts, w));
  }

  predicate PromotesID(d: Decision, id: string) { d.state == Promoted && d.capsuleID == id }

  function PromotedCount(ds: seq<Decision>, id: string): nat {
    if ds == [] then 0 else PromotedCount(ds[..|ds| - 1], id) + if PromotesID(ds[|ds| - 1], id) then 1 else 0
  }

  lemma {:induction false} OwedPromotions(ds: seq<Decision>, history: seq<Capsule>, id: string)
    ensures Promotions(Owed(ds, history), id) == PromotedCount(ds, id)
  {
    if ds != [] { OwedPromotions(ds[..|ds| - 1], history, id); }
  }

  lemma {:induction false} CountedSomewhere(ds: seq<Decision>, id: string)
    ensures PromotedCount(ds, id) > 0 <==> exists i :: 0 <= i < |ds| && PromotesID(ds[i], id)
  {
    if ds != [] {
      var n := |ds| - 1;
      CountedSomewhere(ds[..n], id);
      assert forall i :: 0 <= i < n ==> ds[i] == ds[..n][i];
    }
  }

  lemma {:induction false} EligibleOnce(cands: seq<Capsule>, crit: Criteria, history: seq<Capsule>, id: string)
    ensures EligibleCount(cands, crit, history, id) > 0 <==>
            exists i :: 0 <= i < |cands| && Eligible(cands[i], crit, history) && cands[i].id == id
    ensures EligibleCount(cands, crit, history, id) > 1 <==>
            exists i, j :: 0 <= i < j < |cands| && Eligible(cands[i], crit, history) && Eligible(cands[j], crit, history) && cands[i].id == id == cands[j].id
  {
    hide Eligible;
    if cands != [] {
      var n := |cands| - 1;
      EligibleOnce(cands[..n], crit, history, id);
      assert forall i :: 0 <= i < n ==> cands[i] == cands[..n][i];
    }
  }

  /** The decisions agree with the candidates position by position, and those after them promote nothing. */
  ghost predicate Aligned(ds: seq<Decision>, cands: seq<Capsule>, crit: Criteria, history: seq<Capsule>, k: nat, id: string) {
    && k <= |ds| && k <= |cands|
    && (forall i :: 0 <= i < k && PromotesID(ds[i], id) ==> Eligible(cands[i], crit, history) && cands[i].id == id)
    && (forall i :: k <= i < |ds| ==> !PromotesID(ds[i], id))
  }

  lemma {:induction false} AlignedCounts(ds: seq<Decision>, cands: seq<Capsule>, crit: Criteria, history: seq<Capsule>, k: nat, id: string)
    requires Aligned(ds, cands, crit, history, k, id)
    ensures PromotedCount(ds, id) <= EligibleCount(cands, crit, history, id)
    ensures k == |cands| && (forall i :: 0 <= i < k && Eligible(cands[i], crit, history) && cands[i].id == id ==> PromotesID(ds[i], id)) ==>
              PromotedCount(ds, id) == EligibleCount(cands, crit, history, id)
    decreases |ds| + |cands|
  {
    hide Eligible, PromotesID;
    if |ds| > k {
      AlignedCounts(ds[..|ds| - 1], cands, crit, history, k, id);
    } else if |cands| > k {
      AlignedCounts(ds, cands[..|cands| - 1], crit, history, k, id);
    } else if k > 0 {
      AlignedCounts(ds[..k - 1], cands[..k - 1], crit, history, k - 1, id);
    }
  }

  /** A run promotes a source at most as often as eligible candidates carry its id. */
  lemma PromotedAtMost(seams: Seams, opts: Options, w: World, id: string)
    ensures PromotedCount(RunOf(seams, opts, w).summary.decisions, id) <=
            EligibleCount(opts.candidates, EffectiveCriteria(opts.criteria), opts.history, id)
  {
    hide RunOf, Eligible, EffectiveCriteria, GateOf, Tallied, EligibleCount;
    RunAccounts(seams, opts, w);
    var s := RunOf(seams, opts, w).summary;
    var k := s.promoted + s.skipped + s.failed;
    forall i | 0 <= i < k && PromotesID(s.decisions[i], id)
      ensures Eligible(opts.candidates[i], EffectiveCriteria(opts.criteria), opts.history) && opts.candidates[i].id == id
    {
      DecisionMeaning(seams, opts, w, i);
    }
    AlignedCounts(s.decisions, opts.candidates, EffectiveCriteria(opts.criteria), opts.history, k, id);
  }

  /**
   Exact accounting: an error-free wet run writes one promotion of a source for every time it
   promotes it; a failing run may fall one short; a dry run writes none.
   */
  lemma PromotionsWritten(seams: Seams, opts: Options, w: World, id: string)
    ensures var r := RunOf(seams, opts, w);
            var before, after := Promotions(Entries(w.outbox), id), Promotions(Entries(r.world.outbox), id);
            && before <= after <= before + PromotedCount(r.summary.decisions, id)
            && (!seams.dryRun && r.err.None? ==> after == before + PromotedCount(r.summary.decisions, id))
            && (seams.dryRun ==> after == before)
  {
    var r := RunOf(seams, opts, w);
    if seams.dryRun {
      DryRunWritesNothing(seams, opts, w);
    } else {
      WritesFollowDecisions(seams, opts, w);
      OwedPromotions(r.summary.decisions, opts.history, id);
      SettledCounts(r.world.outbox, Entries(w.outbox), Owed(r.summary.decisions, opts.history), r.err, id);
    }
  }

  lemma SettledCounts(outbox: seq<OutboxCapsule>, base: seq<Entry>, owed: seq<Entry>, err: Option<RunError>, id: string)
    requires Settled(outbox, base, owed, err)
    ensures Promotions(base, id) <= Promotions(Entries(outbox), id) <= Promotions(base, id) + Promotions(owed, id)
    ensures err.None? ==> Promotions(Entries(outbox), id) == Promotions(base, id) + Promotions(owed, id)
  {
    if Entries(outbox) != base + owed {
      var n := |owed| - 1;
      assert owed == owed[..n] + [owed[n]];
    }
  }

  /** Anything that counts as a written promotion is recognised once read back. */
  lemma EntryPromotes(o: OutboxCapsule, c: Capsule, id: string)
    requires EntryOf(o) == PromotionOf(Text(id)) && c.metadata == Some(o.metadata)
    ensures Promotes(c, id)
  {
  }

  /** A source with a promotion the history can see is not promoted again. */
  lemma NotPromotedAgain(seams: Seams, opts: Options, w: World, id: string)
    requires ReadsBack(opts.history, w.outbox) && Promotions(Entries(w.outbox), id) > 0
    ensures PromotedCount(RunOf(seams, opts, w).summary.decisions, id) == 0
  {
    hide RunOf, Promotes, EntryOf, GateOf, EffectiveCriteria, Tallied;
    var ds := RunOf(seams, opts, w).summary.decisions;
    var e := PromotionOf(Text(id));
    assert e in Entries(w.outbox);
    var k :| 0 <= k < |w.outbox| && Entries(w.outbox)[k] == e;
    assert w.outbox[k] in w.outbox;
    var h :| 0 <= h < |opts.history| && opts.history[h].metadata == Some(w.outbox[k].metadata);
    EntryPromotes(w.outbox[k], opts.history[h], id);
    CountedSomewhere(ds, id);
    if i :| 0 <= i < |ds| && PromotesID(ds[i], id) {
      RunAccounts(seams, opts, w);
      DecisionMeaning(seams, opts, w, i);
    }
  }

  /**
   One run adds at most one promotion of any source that no two eligible candidates share, and none
   of a source already promoted.
   */
  lemma RunPromotesOnce(seams: Seams, opts: Options, w: World, id: string)
    requires ReadsBack(opts.history, w.outbox)
    requires EligibleCount(opts.candidates, EffectiveCriteria(opts.criteria), opts.history, id) <= 1
    requires Promotions(Entries(w.outbox), id) <= 1
    ensures Promotions(Entries(RunOf(seams, opts, w).world.outbox), id) <= 1
  {
    hide RunOf, ReadsBack, Entries, EligibleCount, EffectiveCriteria;
    PromotionsWritten(seams, opts, w, id);
    if Promotions(Entries(w.outbox), id) > 0 {
      NotPromotedAgain(seams, opts, w, id);
    } else {
      PromotedAtMost(seams, opts, w, id);
    }
  }

  /** Over any sequence of informed runs every source is written as a promotion at most once. */
  lemma {:induction false} AtMostOnePromotion(runs: seq<Invocation>, w: World, id: string)
    requires Informed(runs, w) && Promotions(Entries(w.outbox), id) <= 1
    ensures Promotions(Entries(RunAll(runs, w).outbox), id) <= 1
  {
    hide RunOf, Promotions, Entries, ReadsBack, Eligible, EffectiveCriteria, EligibleCount;
    if runs != [] {
      var opts := runs[0].opts;
      EligibleOnce(opts.candidates, EffectiveCriteria(opts.criteria), opts.history, id);
      RunPromotesOnce(runs[0].seams, runs[0].opts, w, id);
      AtMostOnePromotion(runs[1..], RunOf(runs[0].seams, runs[0].opts, w).world, id);
    }
  }

  // ---------------------------------------------------------------- exactly when once is guaranteed

  /** A wet run in which neither the writer nor the context fails. */
  ghost predicate Working(seams: Seams) {
    !seams.dryRun && NeverFails(seams) && forall k :: seams.ctxErr(k).None?
  }

  lemma {:induction false} WorkingPasses(seams: Seams, crit: Criteria, history: seq<Capsule>, cands: seq<Capsule>,
                                         look: Lookback, machines: seq<string>, s: RunState)
    requires Working(seams) && s.err.None?
    ensures CandidatePass(seams, crit, history, cands, s).err.None?
    ensures RollbackPass(seams, look, machines, s).err.None?
    decreases |cands| + |machines|
  {
    hide Verdict, Decide, BuildPromotionCapsule, BuildRollbackCapsule, Tally;
    if cands != [] {
      WorkingPasses(seams, crit, history, cands[1..], look, [], CandidateStep(seams, crit, history, cands[0], s)) by {
        CandidateWorks(seams, crit, history, cands[0], s);
      }
    }
    if machines != [] {
      RollbackWorks(seams, look, machines[0], s);
      WorkingPasses(seams, crit, history, [], look, machines[1..], RollbackStep(seams, look, machines[0], s));
    }
  }

  lemma CandidateWorks(seams: Seams, crit: Criteria, history: seq<Capsule>, c: Capsule, s: RunState)
    requires Working(seams) && s.err.None?
    ensures CandidateStep(seams, crit, history, c, s).err.None?
  {
    hide Verdict, BuildPromotionCapsule, Tally;
  }

  lemma RollbackWorks(seams: Seams, look: Lookback, machine: string, s: RunState)
    requires Working(seams) && s.err.None?
    ensures RollbackStep(seams, look, machine, s).err.None?
  {
    hide BuildRollbackCapsule, Tally, IsRegression, WindowOf, LatestRollup, LatestPromotion;
  }

  lemma WorkingRun(seams: Seams, opts: Options, w: World)
    requires Working(seams)
    ensures RunOf(seams, opts, w).err.None?
  {
    hide CandidatePass, RollbackPass, Working;
    var look := LookbackOf(seams, opts, w);
    WorkingPasses(seams, EffectiveCriteria(opts.criteria), opts.history, opts.candidates, look, [], StartOf(w));
    WorkingPasses(seams, EffectiveCriteria(opts.criteria), opts.history, [], look, Machines(opts.rollups), AfterCandidates(seams, opts, w));
  }

  /**
   A working run without a gate writes one promotion for every eligible candidate: candidates are
   checked against the history only, not against each other.
   */
  lemma UngatedRunPromotesAll(seams: Seams, opts: Options, w: World, id: string)
    requires Working(seams) && seams.gate.None?
    ensures Promotions(Entries(RunOf(seams, opts, w).world.outbox), id) ==
            Promotions(Entries(w.outbox), id) + EligibleCount(opts.candidates, EffectiveCriteria(opts.criteria), opts.history, id)
  {
    hide RunOf, Eligible, EffectiveCriteria, Tallied, EligibleCount, Entries;
    WorkingRun(seams, opts, w);
    PromotionsWritten(seams, opts, w, id);
    RunAccounts(seams, opts, w);
    var s := RunOf(seams, opts, w).summary;
    var k := s.promoted + s.skipped + s.failed;
    forall i | 0 <= i < k
      ensures PromotesID(s.decisions[i], id) <==>
              Eligible(opts.candidates[i], EffectiveCriteria(opts.criteria), opts.history) && opts.candidates[i].id == id
    {
      DecisionMeaning(seams, opts, w, i);
    }
    AlignedCounts(s.decisions, opts.candidates, EffectiveCriteria(opts.criteria), opts.history, k, id);
  }

  /**
   Exactly when one run adds at most one promotion of a source, whatever its gate answers: when no
   two eligible candidates share its id.
   */
  lemma PromotedOnceIff(seams: Seams, opts: Options, w: World, id: string)
    requires Working(seams)
    ensures (forall gate :: Promotions(Entries(RunOf(seams.(gate := gate), opts, w).world.outbox), id) <= Promotions(Entries(w.outbox), id) + 1)
            <==> EligibleCount(opts.candidates, EffectiveCriteria(opts.criteria), opts.history, id) <= 1
  {
    hide RunOf, EffectiveCriteria, EligibleCount, Promotions, Entries;
    forall gate
      ensures Promotions(Entries(RunOf(seams.(gate := gate), opts, w).world.outbox), id) <=
              Promotions(Entries(w.outbox), id) + EligibleCount(opts.candidates, EffectiveCriteria(opts.criteria), opts.history, id)
    {
      PromotionsWritten(seams.(gate := gate), opts, w, id);
      PromotedAtMost(seams.(gate := gate), opts, w, id);
    }
    UngatedRunPromotesAll(seams.(gate := None), opts, w, id);
  }

  /** So two eligible candidates with the same id can both be written. */
  lemma DuplicateCandidatePromotedTwice(seams: Seams, opts: Options, w: World, i: nat, j: nat)
    requires Working(seams) && seams.gate.None? && i < j < |opts.candidates|
    requires var crit := EffectiveCriteria(opts.criteria);
             Eligible(opts.candidates[i], crit, opts.history) && Eligible(opts.candidates[j], crit, opts.history)
    requires opts.candidates[i].id == opts.candidates[j].id
    ensures var id := opts.candidates[i].id;
            Promotions(Entries(RunOf(seams, opts, w).world.outbox), id) >= Promotions(Entries(w.outbox), id) + 2
  {
    hide RunOf, Eligible, EffectiveCriteria, EligibleCount, Promotions, Entries, Working;
    var id := opts.candidates[i].id;
    UngatedRunPromotesAll(seams, opts, w, id);
    EligibleOnce(opts.candidates, EffectiveCriteria(opts.criteria), opts.history, id);
  }
}
