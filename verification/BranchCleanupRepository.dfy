/** Repositories in which deletions show, and in which a dry run still foretells the wet run. */
module BranchCleanupRepository {
  import opened Wrappers
  import opened GoStrings
  import opened BranchCleanup
  import opened BranchCleanupTheorems
  import opened BranchCleanupDryRun

  // ---------------------------------------------------------------- what is asked of the repository

  /** Some listing of merged branches in the log named the branch. */
  ghost predicate ListedMerged(git: Git, h: seq<Command>, b: string) {
    exists j :: 0 <= j < |h| && h[j] == MergedLocal && NamesMerged(git, h[..j], b)
  }

  predicate NamesMerged(git: Git, h: seq<Command>, b: string) {
    git(h, MergedLocal).Out? && b in ParseBranches(git(h, MergedLocal).text)
  }

  ghost predicate NoLocal(h: seq<Command>) { forall b :: DeleteLocal(b) !in h }

  ghost predicate NoRemote(h: seq<Command>) { forall b :: DeleteRemote(b) !in h }

  /** Only branches that were listed as merged have been deleted. */
  ghost predicate OnlyMerged(git: Git, h: seq<Command>) {
    forall b :: DeleteLocal(b) in h ==> ListedMerged(git, h, b)
  }

  /**
   No deletion in the history bears on the question. The commits of a branch can be asked for while
   that branch is there; a listing of unmerged branches does not change when merged ones go; a
   listing of remote branches does not change when local ones go.
   */
  ghost predicate Untouched(git: Git, h: seq<Command>, c: Command) {
    match c
    case CherryLog(b) => DeleteLocal(b) !in h
    case NotMergedLocal => OnlyMerged(git, h)
    case MergedRemote => NoRemote(h)
    case _ => NoLocal(h) && NoRemote(h)
  }

  /** A deletion changes no reply on which it does not bear; every other reply it may change. */
  ghost predicate Local(git: Git) {
    forall h, c :: !Deletes(c) && Untouched(git, h, c) ==> git(h, c) == git(Reads(h), c)
  }

  predicate Distinct(bs: seq<string>) { forall i, j :: 0 <= i < j < |bs| ==> bs[i] != bs[j] }

  /** A listing of unmerged branches names each of them once, and none that was listed as merged. */
  ghost predicate Apart(git: Git) {
    forall h :: git(h, NotMergedLocal).Out? ==>
                  var bs := ParseBranches(git(h, NotMergedLocal).text);
                  Distinct(bs) && forall b :: b in bs ==> !ListedMerged(git, h, b)
  }

  // ---------------------------------------------------------------- what every run keeps

  /** No deletion of the log bears on a later question of the log. */
  ghost predicate Quiet(git: Git, log: seq<Command>) {
    forall k :: 0 <= k < |log| && !Deletes(log[k]) ==> Untouched(git, log[..k], log[k])
  }

  lemma QuietMore(git: Git, h: seq<Command>, c: Command)
    requires Quiet(git, h) && (Deletes(c) || Untouched(git, h, c))
    ensures Quiet(git, h + [c])
  {
    hide Untouched, Deletes;
    var more := h + [c];
    assert forall k :: 0 <= k <= |h| ==> more[..k] == h[..k];
    assert h[..|h|] == h;
    forall k | 0 <= k < |more| && !Deletes(more[k]) ensures Untouched(git, more[..k], more[k]) {
      if k < |h| { assert more[k] == h[k]; }
    }
  }

  lemma ListedLonger(git: Git, h: seq<Command>, c: Command, b: string)
    requires ListedMerged(git, h, b)
    ensures ListedMerged(git, h + [c], b)
  {
    hide NamesMerged;
    var j :| 0 <= j < |h| && h[j] == MergedLocal && NamesMerged(git, h[..j], b);
    assert (h + [c])[..j] == h[..j];
  }

  lemma OnlyMergedLonger(git: Git, h: seq<Command>, c: Command)
    requires OnlyMerged(git, h) && (!c.DeleteLocal? || ListedMerged(git, h, c.branch))
    ensures OnlyMerged(git, h + [c])
  {
    hide ListedMerged;
    forall b | DeleteLocal(b) in h + [c] ensures ListedMerged(git, h + [c], b) { ListedLonger(git, h, c, b); }
  }

  lemma {:induction false} LocalPassQuiet(git: Git, current: string, p: Progress, bs: seq<string>)
    requires Quiet(git, p.issued) && OnlyMerged(git, p.issued) && NoRemote(p.issued)
    requires forall b :: b in bs ==> ListedMerged(git, p.issued, b)
    ensures var q := LocalPass(git, current, p, bs); Quiet(git, q.issued) && OnlyMerged(git, q.issued) && NoRemote(q.issued)
    decreases bs
  {
    hide Quiet, OnlyMerged, ListedMerged, Protected;
    if bs != [] {
      var b, c := bs[0], DeleteLocal(bs[0]);
      QuietMore(git, p.issued, c);
      OnlyMergedLonger(git, p.issued, c);
      forall x | x in bs[1..] ensures ListedMerged(git, p.issued + [c], x) { ListedLonger(git, p.issued, c, x); }
      LocalPassQuiet(git, current, LocalStep(git, current, p, b), bs[1..]);
    }
  }

  lemma SquashStepQuiet(git: Git, current: string, p: Progress, b: string)
    requires Quiet(git, p.issued) && NoRemote(p.issued) && DeleteLocal(b) !in p.issued
    ensures var q := SquashStep(git, current, p, b); Quiet(git, q.issued) && NoRemote(q.issued)
    ensures forall x :: x != b && DeleteLocal(x) !in p.issued ==> DeleteLocal(x) !in SquashStep(git, current, p, b).issued
  {
    hide Quiet, OnlyMerged, Protected, TrimSpace;
    QuietMore(git, p.issued, CherryLog(b));
    QuietMore(git, p.issued + [CherryLog(b)], DeleteLocal(b));
  }

  lemma {:induction false} SquashPassQuiet(git: Git, current: string, p: Progress, bs: seq<string>)
    requires Quiet(git, p.issued) && NoRemote(p.issued) && Distinct(bs)
    requires forall b :: b in bs ==> DeleteLocal(b) !in p.issued
    ensures var q := SquashPass(git, current, p, bs); Quiet(git, q.issued) && NoRemote(q.issued)
    decreases bs
  {
    hide Quiet, SquashStep, NoRemote;
    if bs != [] {
      SquashStepQuiet(git, current, p, bs[0]);
      assert forall x :: x in bs[1..] ==> x in bs && x != bs[0];
      SquashPassQuiet(git, current, SquashStep(git, current, p, bs[0]), bs[1..]);
    }
  }

  lemma {:induction false} RemotePassQuiet(git: Git, p: Progress, bs: seq<string>)
    requires Quiet(git, p.issued)
    ensures Quiet(git, RemotePass(git, p, bs).issued)
    decreases bs
  {
    hide Quiet;
    if bs != [] {
      QuietMore(git, p.issued, DeleteRemote(bs[0]));
      RemotePassQuiet(git, RemoteStep(git, p, bs[0]), bs[1..]);
    }
  }

  lemma JustListed(git: Git, h: seq<Command>, b: string)
    requires NamesMerged(git, h, b)
    ensures ListedMerged(git, h + [MergedLocal], b)
  {
    hide NamesMerged;
    assert (h + [MergedLocal])[|h|] == MergedLocal && (h + [MergedLocal])[..|h|] == h;
  }

  lemma LocalStageQuiet(git: Git, opts: Options, current: string, p: Progress)
    requires Quiet(git, p.issued) && NoLocal(p.issued) && NoRemote(p.issued)
    ensures var q := LocalStage(git, opts, current, p); Quiet(git, q.issued) && OnlyMerged(git, q.issued) && NoRemote(q.issued)
  {
    hide Quiet, ParseBranches, LocalPass, ListedMerged;
    if opts.deleteLocalMerged {
      QuietMore(git, p.issued, MergedLocal);
      var r := git(p.issued, MergedLocal);
      if r.Out? {
        forall b | b in ParseBranches(r.text) ensures ListedMerged(git, p.issued + [MergedLocal], b) { JustListed(git, p.issued, b); }
        LocalPassQuiet(git, current, Issue(p, MergedLocal), ParseBranches(r.text));
      }
    }
  }

  lemma SquashStageQuiet(git: Git, opts: Options, current: string, p: Progress)
    requires Apart(git) && Quiet(git, p.issued) && OnlyMerged(git, p.issued) && NoRemote(p.issued)
    ensures var q := SquashStage(git, opts, current, p); Quiet(git, q.issued) && NoRemote(q.issued)
  {
    hide Quiet, ParseBranches, SquashPass, ListedMerged, Distinct;
    if opts.detectSquashMerged {
      QuietMore(git, p.issued, NotMergedLocal);
      var r := git(p.issued, NotMergedLocal);
      if r.Out? { SquashPassQuiet(git, current, Issue(p, NotMergedLocal), ParseBranches(r.text)); }
    }
  }

  lemma RemoteStageQuiet(git: Git, opts: Options, p: Progress)
    requires Quiet(git, p.issued) && NoRemote(p.issued)
    ensures Quiet(git, RemoteStage(git, opts, p).issued)
  {
    hide Quiet, ParseRemoteBranches, RemotePass, NoRemote;
    if opts.deleteRemoteMerged {
      QuietMore(git, p.issued, MergedRemote);
      var r := git(p.issued, MergedRemote);
      if r.Out? { RemotePassQuiet(git, Issue(p, MergedRemote), ParseRemoteBranches(r.text)); }
    }
  }

  lemma PassesQuiet(git: Git, opts: Options, current: string, p: Progress)
    requires Apart(git) && Quiet(git, p.issued) && NoLocal(p.issued) && NoRemote(p.issued)
    ensures Quiet(git, Passes(git, opts, current, p).issued)
  {
    hide Apart, Quiet, NoLocal, NoRemote, OnlyMerged, LocalStage, SquashStage, RemoteStage;
    var l := LocalStage(git, opts, current, p);
    LocalStageQuiet(git, opts, current, p);
    SquashStageQuiet(git, opts, current, l);
    RemoteStageQuiet(git, opts, SquashStage(git, opts, current, l));
  }

  lemma RunQuiet(git: Git, repo: string, opts: Options)
    requires Apart(git)
    ensures Quiet(git, CleanupOf(git, repo, opts).issued)
  {
    hide Apart, Quiet, Passes, TrimSpace;
    NothingAsked(git);
    QuietMore(git, [], FetchPrune);
    var p := PruneStage(git, opts, Start(repo, opts));
    assert [] + [FetchPrune] == [FetchPrune];
    QuietMore(git, p.issued, ShowCurrent);
    var r, q := git(p.issued, ShowCurrent), Issue(p, ShowCurrent);
    if r.Out? { PassesQuiet(git, opts, TrimSpace(r.text), q); }
  }

  lemma NothingAsked(git: Git)
    ensures Quiet(git, [])
  {
  }

  lemma QuietIsSteady(git: Git, log: seq<Command>)
    requires Local(git) && Quiet(git, log)
    ensures SteadyAlong(git, log)
  {
    hide Untouched, Deletes, Reads;
  }

  /**
   In such a repository no run puts a question on which one of its own deletions bears, so the dry
   run foretells the wet run with nothing required of the run itself.
   */
  lemma RepositoryForetold(git: Git, repo: string, opts: Options)
    requires Local(git) && Apart(git)
    ensures SteadyAlong(git, CleanupOf(git, repo, opts).issued)
    ensures Foretells(CleanupOf(git, repo, opts.(dryRun := true)), CleanupOf(git, repo, opts.(dryRun := false)))
  {
    hide Local, Apart, Quiet, SteadyAlong, Foretells, CleanupOf;
    RunQuiet(git, repo, opts);
    QuietIsSteady(git, CleanupOf(git, repo, opts).issued);
    RunQuiet(git, repo, opts.(dryRun := false));
    QuietIsSteady(git, CleanupOf(git, repo, opts.(dryRun := false)).issued);
    DryRunForetells(git, repo, opts);
  }

  // ---------------------------------------------------------------- a repository in which a deletion shows

  /** One merged branch, listed until it is deleted. */
  function OneMerged(h: seq<Command>, c: Command): Reply {
    Out(if c == MergedLocal && DeleteLocal("b") !in h then "  b" else "")
  }

  lemma DeletionShows()
    ensures Local(OneMerged) && Apart(OneMerged)
    ensures ParseBranches(OneMerged([], MergedLocal).text) == ["b"]
    ensures ParseBranches(OneMerged([DeleteLocal("b")], MergedLocal).text) == []
  {
    hide ParseBranches, ListedMerged;
    EmptyListing();
    var only := Listing(Plain, "b");
    ListingRead([only]);
    assert Join(Lines([only]), '\n') == "  b";
    assert NamesOf([only]) == ["b"];
    forall h, c | !Deletes(c) && Untouched(OneMerged, h, c) ensures OneMerged(h, c) == OneMerged(Reads(h), c) {
      ReadsDeleteNothing(h, DeleteLocal("b"));
    }
  }

  lemma {:induction false} ReadsDeleteNothing(h: seq<Command>, c: Command)
    requires Deletes(c)
    ensures c !in Reads(h)
  {
    if h != [] { ReadsDeleteNothing(h[..|h| - 1], c); }
  }
}
