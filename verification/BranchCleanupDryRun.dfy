/** What a dry run of the branch cleanup foretells, and how the listings are read. */
module BranchCleanupDryRun {
  import opened Wrappers
  import opened GoStrings
  import opened BranchCleanup
  import opened BranchCleanupTheorems

  // ---------------------------------------------------------------- dry against wet

  /** A command log without its deleting commands. */
  function Reads(issued: seq<Command>): seq<Command> {
    if issued == [] then []
    else
      var n := |issued| - 1;
      Reads(issued[..n]) + if Deletes(issued[n]) then [] else [issued[n]]
  }

  /**
   Along this log, what git answered to a command that deletes nothing is what it would have
   answered without the deletions before it. Nothing is said of questions the log does not ask.
   */
  ghost predicate SteadyAlong(git: Git, log: seq<Command>) {
    forall k :: 0 <= k < |log| && !Deletes(log[k]) ==> git(log[..k], log[k]) == git(Reads(log[..k]), log[k])
  }

  lemma ReadsMore(issued: seq<Command>, c: Command)
    ensures Reads(issued + [c]) == Reads(issued) + if Deletes(c) then [] else [c]
  {
    assert (issued + [c])[..|issued|] == issued;
  }

  lemma SteadyReply(git: Git, log: seq<Command>, h: seq<Command>, c: Command)
    requires SteadyAlong(git, log) && h + [c] <= log && !Deletes(c)
    ensures git(Reads(h), c) == git(h, c)
  {
    hide Reads, Deletes;
    assert log[|h|] == (h + [c])[|h|] && log[..|h|] == (h + [c])[..|h|] == h;
  }

  /** The dry run has asked what the wet run asked, and reports as deleted what the wet run attempts to delete. */
  ghost predicate Foretells(dry: Progress, wet: Progress) {
    && dry.result.dryRun && !wet.result.dryRun && dry.result.err == wet.result.err
    && dry.issued == Reads(wet.issued)
    && dry.result.localDeleted == Attempts(wet.issued, false)
    && dry.result.remoteDeleted == Attempts(wet.issued, true)
  }

  lemma BothIssue(git: Git, dry: Progress, wet: Progress, c: Command)
    requires Foretells(dry, wet) && !Deletes(c)
    ensures Foretells(Issue(dry, c), Issue(wet, c))
  {
    hide Attempts, Reads;
    ReadsMore(wet.issued, c);
    OneMore(git, wet.issued, c, false);
    OneMore(git, wet.issued, c, true);
  }

  lemma BothDelete(git: Git, dry: Progress, wet: Progress, b: string)
    requires Foretells(dry, wet)
    ensures Foretells(DeleteBranch(git, dry, b), DeleteBranch(git, wet, b))
    ensures Foretells(RemoteStep(git, dry, b), RemoteStep(git, wet, b))
  {
    hide Attempts, Reads;
    ReadsMore(wet.issued, DeleteLocal(b));
    ReadsMore(wet.issued, DeleteRemote(b));
    OneMore(git, wet.issued, DeleteLocal(b), false);
    OneMore(git, wet.issued, DeleteLocal(b), true);
    OneMore(git, wet.issued, DeleteRemote(b), false);
    OneMore(git, wet.issued, DeleteRemote(b), true);
  }

  lemma LongerYet<T>(a: seq<T>, b: seq<T>, c: seq<T>)
    requires a <= b && b <= c
    ensures a <= c
  {
  }

  /** The log only grows, and a squash step that asks puts the question first. */
  lemma StepsExtend(git: Git, current: string, p: Progress, b: string)
    ensures p.issued <= LocalStep(git, current, p, b).issued
    ensures p.issued <= RemoteStep(git, p, b).issued
    ensures p.issued <= SquashStep(git, current, p, b).issued
    ensures !Protected(b) && b != current ==> p.issued + [CherryLog(b)] <= SquashStep(git, current, p, b).issued
  {
    hide Protected, TrimSpace;
  }

  lemma {:induction false} PassesExtend(git: Git, current: string, p: Progress, bs: seq<string>)
    ensures p.issued <= LocalPass(git, current, p, bs).issued
    ensures p.issued <= SquashPass(git, current, p, bs).issued
    ensures p.issued <= RemotePass(git, p, bs).issued
    decreases bs
  {
    hide LocalStep, SquashStep, RemoteStep;
    if bs != [] {
      StepsExtend(git, current, p, bs[0]);
      PassesExtend(git, current, LocalStep(git, current, p, bs[0]), bs[1..]);
      PassesExtend(git, current, SquashStep(git, current, p, bs[0]), bs[1..]);
      PassesExtend(git, current, RemoteStep(git, p, bs[0]), bs[1..]);
    }
  }

  lemma StagesExtend(git: Git, opts: Options, current: string, p: Progress)
    ensures var q := LocalStage(git, opts, current, p).issued;
            p.issued <= q && (opts.deleteLocalMerged ==> p.issued + [MergedLocal] <= q)
    ensures var q := SquashStage(git, opts, current, p).issued;
            p.issued <= q && (opts.detectSquashMerged ==> p.issued + [NotMergedLocal] <= q)
    ensures var q := RemoteStage(git, opts, p).issued;
            p.issued <= q && (opts.deleteRemoteMerged ==> p.issued + [MergedRemote] <= q)
  {
    hide ParseBranches, ParseRemoteBranches, LocalPass, SquashPass, RemotePass;
    var merged, unmerged, remote := git(p.issued, MergedLocal), git(p.issued, NotMergedLocal), git(p.issued, MergedRemote);
    if merged.Out? { PassesExtend(git, current, Issue(p, MergedLocal), ParseBranches(merged.text)); }
    if unmerged.Out? { PassesExtend(git, current, Issue(p, NotMergedLocal), ParseBranches(unmerged.text)); }
    if remote.Out? { PassesExtend(git, current, Issue(p, MergedRemote), ParseRemoteBranches(remote.text)); }
  }

  lemma BothSquash(git: Git, current: string, dry: Progress, wet: Progress, b: string, log: seq<Command>)
    requires Foretells(dry, wet) && SteadyAlong(git, log) && SquashStep(git, current, wet, b).issued <= log
    ensures Foretells(SquashStep(git, current, dry, b), SquashStep(git, current, wet, b))
  {
    assert dry.issued == Reads(wet.issued);
    if !Protected(b) && b != current {
      var c := CherryLog(b);
      assert wet.issued + [c] <= log by {
        hide *;
        StepsExtend(git, current, wet, b);
        LongerYet(wet.issued + [c], SquashStep(git, current, wet, b).issued, log);
      }
      hide Foretells, SteadyAlong, Protected, TrimSpace, DeleteBranch, Reads;
      SteadyReply(git, log, wet.issued, c);
      BothIssue(git, dry, wet, c);
      BothDelete(git, Issue(dry, c), Issue(wet, c), b);
    }
  }

  lemma {:induction false} BothDeletingPass(git: Git, current: string, dry: Progress, wet: Progress, bs: seq<string>)
    requires Foretells(dry, wet)
    ensures Foretells(LocalPass(git, current, dry, bs), LocalPass(git, current, wet, bs))
    ensures Foretells(RemotePass(git, dry, bs), RemotePass(git, wet, bs))
    decreases bs
  {
    hide Attempts, Reads, Protected, DeleteBranch, RemoteStep;
    if bs != [] {
      var b := bs[0];
      BothDelete(git, dry, wet, b);
      BothDeletingPass(git, current, LocalStep(git, current, dry, b), LocalStep(git, current, wet, b), bs[1..]);
      BothDeletingPass(git, current, RemoteStep(git, dry, b), RemoteStep(git, wet, b), bs[1..]);
    }
  }

  lemma {:induction false} BothSquashPass(git: Git, current: string, dry: Progress, wet: Progress, bs: seq<string>, log: seq<Command>)
    requires Foretells(dry, wet) && SteadyAlong(git, log) && SquashPass(git, current, wet, bs).issued <= log
    ensures Foretells(SquashPass(git, current, dry, bs), SquashPass(git, current, wet, bs))
    decreases bs
  {
    hide SteadyAlong, Foretells, SquashStep;
    if bs != [] {
      var b := bs[0];
      var mid := SquashStep(git, current, wet, b);
      PassesExtend(git, current, mid, bs[1..]);
      LongerYet(mid.issued, SquashPass(git, current, wet, bs).issued, log);
      BothSquash(git, current, dry, wet, b, log);
      BothSquashPass(git, current, SquashStep(git, current, dry, b), mid, bs[1..], log);
    }
  }

  /** Both runs ask and get the same reply. */
  lemma Asked(git: Git, dry: Progress, wet: Progress, c: Command, log: seq<Command>)
    requires Foretells(dry, wet) && SteadyAlong(git, log) && wet.issued + [c] <= log && !Deletes(c)
    ensures git(dry.issued, c) == git(wet.issued, c)
    ensures Foretells(Issue(dry, c), Issue(wet, c))
  {
    assert dry.issued == Reads(wet.issued);
    hide SteadyAlong, Foretells, Reads;
    SteadyReply(git, log, wet.issued, c);
    BothIssue(git, dry, wet, c);
  }

  lemma BothStop(dry: Progress, wet: Progress, error: string)
    requires Foretells(dry, wet)
    ensures Foretells(Stop(dry, error), Stop(wet, error))
  {
    hide Attempts, Reads;
  }

  lemma BothLocalStage(git: Git, opts: Options, opts': Options, current: string, dry: Progress, wet: Progress, log: seq<Command>)
    requires Foretells(dry, wet) && SteadyAlong(git, log) && opts' == opts.(dryRun := opts'.dryRun)
    requires LocalStage(git, opts', current, wet).issued <= log
    ensures Foretells(LocalStage(git, opts, current, dry), LocalStage(git, opts', current, wet))
  {
    hide SteadyAlong, Foretells, ParseBranches, LocalPass;
    if opts.deleteLocalMerged {
      StagesExtend(git, opts', current, wet);
      LongerYet(wet.issued + [MergedLocal], LocalStage(git, opts', current, wet).issued, log);
      Asked(git, dry, wet, MergedLocal, log);
      var r, d, w := git(wet.issued, MergedLocal), Issue(dry, MergedLocal), Issue(wet, MergedLocal);
      match r
      case Failed(error) => BothStop(d, w, error);
      case Out(text) => BothDeletingPass(git, current, d, w, ParseBranches(text));
    }
  }

  lemma BothSquashStage(git: Git, opts: Options, opts': Options, current: string, dry: Progress, wet: Progress, log: seq<Command>)
    requires Foretells(dry, wet) && SteadyAlong(git, log) && opts' == opts.(dryRun := opts'.dryRun)
    requires SquashStage(git, opts', current, wet).issued <= log
    ensures Foretells(SquashStage(git, opts, current, dry), SquashStage(git, opts', current, wet))
  {
    hide SteadyAlong, Foretells, ParseBranches, SquashPass;
    if opts.detectSquashMerged {
      StagesExtend(git, opts', current, wet);
      LongerYet(wet.issued + [NotMergedLocal], SquashStage(git, opts', current, wet).issued, log);
      Asked(git, dry, wet, NotMergedLocal, log);
      var r, d, w := git(wet.issued, NotMergedLocal), Issue(dry, NotMergedLocal), Issue(wet, NotMergedLocal);
      if r.Out? { BothSquashPass(git, current, d, w, ParseBranches(r.text), log); }
    }
  }

  lemma BothRemoteStage(git: Git, opts: Options, opts': Options, dry: Progress, wet: Progress, log: seq<Command>)
    requires Foretells(dry, wet) && SteadyAlong(git, log) && opts' == opts.(dryRun := opts'.dryRun)
    requires RemoteStage(git, opts', wet).issued <= log
    ensures Foretells(RemoteStage(git, opts, dry), RemoteStage(git, opts', wet))
  {
    hide SteadyAlong, Foretells, ParseRemoteBranches, RemotePass;
    if opts.deleteRemoteMerged {
      StagesExtend(git, opts', "", wet);
      LongerYet(wet.issued + [MergedRemote], RemoteStage(git, opts', wet).issued, log);
      Asked(git, dry, wet, MergedRemote, log);
      var r, d, w := git(wet.issued, MergedRemote), Issue(dry, MergedRemote), Issue(wet, MergedRemote);
      match r
      case Failed(error) => BothStop(d, w, error);
      case Out(text) => BothDeletingPass(git, "", d, w, ParseRemoteBranches(text));
    }
  }

  lemma BothPasses(git: Git, opts: Options, opts': Options, current: string, dry: Progress, wet: Progress, log: seq<Command>)
    requires Foretells(dry, wet) && SteadyAlong(git, log) && opts' == opts.(dryRun := opts'.dryRun)
    requires Passes(git, opts', current, wet).issued <= log
    ensures Foretells(Passes(git, opts, current, dry), Passes(git, opts', current, wet))
  {
    hide SteadyAlong, LocalStage, SquashStage, RemoteStage, Attempts, Reads;
    var w := LocalStage(git, opts', current, wet);
    var w' := SquashStage(git, opts', current, w);
    StagesExtend(git, opts', current, w);
    StagesExtend(git, opts', current, w');
    BothLocalStage(git, opts, opts', current, dry, wet, log);
    if w.result.err.None? {
      var d := LocalStage(git, opts, current, dry);
      BothSquashStage(git, opts, opts', current, d, w, log);
      BothRemoteStage(git, opts, opts', SquashStage(git, opts, current, d), w', log);
    }
  }

  lemma PassesOnwards(git: Git, opts: Options, current: string, p: Progress)
    ensures p.issued <= Passes(git, opts, current, p).issued
  {
    hide LocalStage, SquashStage, RemoteStage;
    var l := LocalStage(git, opts, current, p);
    StagesExtend(git, opts, current, p);
    StagesExtend(git, opts, current, l);
    StagesExtend(git, opts, current, SquashStage(git, opts, current, l));
  }

  lemma OpeningAsked(git: Git, repo: string, opts: Options)
    ensures var q, log := PruneStage(git, opts, Start(repo, opts)), CleanupOf(git, repo, opts).issued;
            && q.issued <= log
            && (q.result.err.None? ==> q.issued + [ShowCurrent] <= log)
  {
    hide Passes, TrimSpace;
    var q := PruneStage(git, opts, Start(repo, opts));
    var r := git(q.issued, ShowCurrent);
    if r.Out? { PassesOnwards(git, opts, TrimSpace(r.text), Issue(q, ShowCurrent)); }
  }

  lemma BothPrune(git: Git, repo: string, opts: Options, opts': Options, log: seq<Command>)
    requires SteadyAlong(git, log) && opts' == opts.(dryRun := false) && opts.dryRun
    requires PruneStage(git, opts', Start(repo, opts')).issued <= log
    ensures Foretells(PruneStage(git, opts, Start(repo, opts)), PruneStage(git, opts', Start(repo, opts')))
  {
    var dry, wet := Start(repo, opts), Start(repo, opts');
    assert Foretells(dry, wet) by { NoAttempts(); }
    hide SteadyAlong, Foretells;
    if opts.pruneStaleTracking {
      Asked(git, dry, wet, FetchPrune, log);
      var r, d, w := git(wet.issued, FetchPrune), Issue(dry, FetchPrune), Issue(wet, FetchPrune);
      if r.Failed? { BothStop(d, w, r.error); }
    }
  }

  /**
   A dry run fails exactly as the wet run does, asks what the wet run asks, and reports as deleted
   exactly the branches the wet run attempts to delete, in order, whenever no question of the wet
   run is answered otherwise because of a deletion before it.
   */
  lemma DryRunForetells(git: Git, repo: string, opts: Options)
    requires SteadyAlong(git, CleanupOf(git, repo, opts.(dryRun := false)).issued)
    ensures Foretells(CleanupOf(git, repo, opts.(dryRun := true)), CleanupOf(git, repo, opts.(dryRun := false)))
  {
    hide SteadyAlong, Attempts, Reads, TrimSpace, Passes, PruneStage, Start;
    var d, w := opts.(dryRun := true), opts.(dryRun := false);
    var log := CleanupOf(git, repo, w).issued;
    OpeningAsked(git, repo, w);
    BothPrune(git, repo, d, w, log);
    var dry, wet := PruneStage(git, d, Start(repo, d)), PruneStage(git, w, Start(repo, w));
    if wet.result.err.None? {
      Asked(git, dry, wet, ShowCurrent, log);
      var r := git(wet.issued, ShowCurrent);
      var dry', wet' := Issue(dry, ShowCurrent), Issue(wet, ShowCurrent);
      match r
      case Failed(error) => BothStop(dry', wet', error);
      case Out(text) => BothPasses(git, d, w, TrimSpace(text), dry', wet', log);
    }
  }

  lemma NoAttempts()
    ensures Attempts([], false) == [] && Attempts([], true) == []
  {
  }

  /** `xs` is `ys` with some elements left out. */
  predicate Subsequence(xs: seq<string>, ys: seq<string>) {
    if xs == [] then true
    else if ys == [] then false
    else
      || (xs[|xs| - 1] == ys[|ys| - 1] && Subsequence(xs[..|xs| - 1], ys[..|ys| - 1]))
      || Subsequence(xs, ys[..|ys| - 1])
  }

  /** Every deletion in the log succeeded. */
  predicate AllSucceed(git: Git, issued: seq<Command>, remote: bool) {
    forall k :: 0 <= k < |issued| && Target(issued[k], remote).Some? ==> git(issued[..k], issued[k]).Out?
  }

  lemma SucceedMore(git: Git, issued: seq<Command>, remote: bool)
    requires issued != []
    ensures var n := |issued| - 1;
            AllSucceed(git, issued, remote) <==>
            AllSucceed(git, issued[..n], remote) && (Target(issued[n], remote).Some? ==> git(issued[..n], issued[n]).Out?)
  {
    hide Target;
    var n := |issued| - 1;
    assert forall k :: 0 <= k <= n ==> issued[..n][..k] == issued[..k];
    assert forall k :: 0 <= k < n ==> issued[..n][k] == issued[k];
  }

  lemma {:induction false} DeletedAmongAttempts(git: Git, issued: seq<Command>, remote: bool)
    ensures Subsequence(Deleted(git, issued, remote), Attempts(issued, remote))
    ensures |Deleted(git, issued, remote)| <= |Attempts(issued, remote)|
    ensures Deleted(git, issued, remote) == Attempts(issued, remote) <==> AllSucceed(git, issued, remote)
  {
    hide Target, AllSucceed, Subsequence;
    if issued == [] {
      NothingToDelete(git, remote);
    } else {
      var n := |issued| - 1;
      DeletedAmongAttempts(git, issued[..n], remote);
      SucceedMore(git, issued, remote);
      var t := Target(issued[n], remote);
      var d, a := Deleted(git, issued[..n], remote), Attempts(issued[..n], remote);
      assert d + [] == d && a + [] == a;
      if t.Some? { Lengthened(d, a, t.value); }
    }
  }

  lemma NothingToDelete(git: Git, remote: bool)
    ensures AllSucceed(git, [], remote) && Subsequence([], [])
  {
  }

  lemma Lengthened(d: seq<string>, a: seq<string>, x: string)
    requires Subsequence(d, a) && |d| <= |a|
    ensures Subsequence(d, a + [x]) && Subsequence(d + [x], a + [x])
    ensures d + [x] == a + [x] <==> d == a
    ensures d != a + [x]
  {
    assert (a + [x])[..|a|] == a && (d + [x])[..|d|] == d;
  }

  /**
   Hence what a wet run deletes is, in order, part of what the dry run announced, on each side, and
   all of it exactly when no deletion fails.
   */
  lemma WetDeletesAnnounced(git: Git, repo: string, opts: Options)
    requires SteadyAlong(git, CleanupOf(git, repo, opts.(dryRun := false)).issued)
    ensures var dry := CleanupOf(git, repo, opts.(dryRun := true)).result;
            var run := CleanupOf(git, repo, opts.(dryRun := false));
            && Subsequence(run.result.localDeleted, dry.localDeleted)
            && Subsequence(run.result.remoteDeleted, dry.remoteDeleted)
            && (run.result.localDeleted == dry.localDeleted <==> AllSucceed(git, run.issued, false))
            && (run.result.remoteDeleted == dry.remoteDeleted <==> AllSucceed(git, run.issued, true))
  {
    hide CleanupOf, Deleted, Attempts, Subsequence, AllSucceed;
    var run := CleanupOf(git, repo, opts.(dryRun := false));
    DryRunForetells(git, repo, opts);
    WetRunReportsDeletions(git, repo, opts.(dryRun := false));
    DeletedAmongAttempts(git, run.issued, false);
    DeletedAmongAttempts(git, run.issued, true);
  }

  // ---------------------------------------------------------------- reading a listing

  /** How git marks a branch in a listing: not at all, as checked out here, as checked out in another worktree. */
  datatype Mark = Plain | Here | Elsewhere

  datatype Listing = Listing(mark: Mark, name: string)

  function Line(l: Listing): string {
    (match l.mark case Plain => "  " case Here => "* " case Elsewhere => "+ ") + l.name
  }

  function Lines(ls: seq<Listing>): (lines: seq<string>)
    ensures |lines| == |ls| && forall i :: 0 <= i < |ls| ==> lines[i] == Line(ls[i])
  {
    seq(|ls|, i requires 0 <= i < |ls| => Line(ls[i]))
  }

  function NamesOf(ls: seq<Listing>): (names: seq<string>)
    ensures |names| == |ls| && forall i :: 0 <= i < |ls| ==> names[i] == ls[i].name
  {
    seq(|ls|, i requires 0 <= i < |ls| => ls[i].name)
  }

  /** A name git can list: some text on one line without surrounding space, and not itself marked. */
  predicate Nameable(b: string) {
    b != "" && Trimmed(b) && '\n' !in b && !HasPrefix(b, "* ") && !HasPrefix(b, "+ ")
  }

  lemma SkipSpace(b: string)
    ensures TrimLeft(" " + b) == TrimLeft(b)
  {
    assert (" " + b)[1..] == b;
  }

  lemma TrimAfterSpaces(b: string)
    requires b != "" && Trimmed(b)
    ensures TrimSpace("  " + b) == b
  {
    hide IsSpace, TrimLeft, TrimRight;
    assert "  " + b == " " + (" " + b);
    SkipSpace(" " + b);
    SkipSpace(b);
    TrimmedStays(b);
  }

  lemma TrimmedStays(b: string)
    requires b != "" && Trimmed(b)
    ensures TrimLeft(b) == b && TrimRight(b) == b
  {
    hide IsSpace;
  }

  lemma TrimMarked(mark: string, b: string)
    requires (mark == "* " || mark == "+ ") && b != "" && Trimmed(b)
    ensures TrimSpace(mark + b) == mark + b
  {
    assert !IsSpace((mark + b)[0]);
    assert (mark + b)[|mark + b| - 1] == b[|b| - 1];
  }

  lemma Stripped(mark: string, b: string)
    ensures TrimPrefix(mark + b, mark) == b
  {
  }

  lemma NoStar(b: string)
    ensures TrimPrefix("+ " + b, "* ") == "+ " + b
  {
    assert ("+ " + b)[0] == '+' != "* "[0];
  }

  lemma LineName(l: Listing)
    requires Nameable(l.name)
    ensures BranchName(Line(l)) == l.name
  {
    hide TrimSpace, HasPrefix;
    match l.mark
    case Plain =>
      TrimAfterSpaces(l.name);
    case Here =>
      TrimMarked("* ", l.name);
      Stripped("* ", l.name);
    case Elsewhere =>
      TrimMarked("+ ", l.name);
      NoStar(l.name);
      Stripped("+ ", l.name);
  }

  lemma {:induction false} LineNames(ls: seq<Listing>)
    requires forall i :: 0 <= i < |ls| ==> Nameable(ls[i].name)
    ensures Names(Lines(ls)) == NamesOf(ls)
  {
    hide BranchName, Line, Nameable;
    if ls != [] {
      var n := |ls| - 1;
      LineNames(ls[..n]);
      LineName(ls[n]);
      NonEmpty(ls[n].name);
      assert Lines(ls)[..n] == Lines(ls[..n]);
    }
  }

  lemma NonEmpty(b: string)
    requires Nameable(b)
    ensures b != ""
  {
  }

  lemma NoBreak(l: Listing)
    requires Nameable(l.name)
    ensures '\n' !in Line(l)
  {
  }

  /** The listing as git prints it. */
  function Rendered(ls: seq<Listing>): string { if ls == [] then "" else Join(Lines(ls), '\n') }

  /** Reading a listing gives the names that were listed, in order, whatever their marks. */
  lemma ListingRead(ls: seq<Listing>)
    requires forall i :: 0 <= i < |ls| ==> Nameable(ls[i].name)
    ensures ParseBranches(Rendered(ls)) == NamesOf(ls)
  {
    hide Names, BranchName, Nameable, Line, Split, Join;
    LineNames(ls);
    if ls == [] {
      EmptyListing();
    } else {
      forall i | 0 <= i < |ls| ensures '\n' !in Lines(ls)[i] { NoBreak(ls[i]); }
      SplitJoin(Lines(ls), '\n');
    }
  }

  lemma TrimEmpty()
    ensures TrimSpace("") == ""
  {
  }

  lemma EmptyListing()
    ensures ParseBranches("") == []
  {
    hide TrimSpace;
    assert Split("", '\n') == [""];
    TrimEmpty();
    assert [""][..0] == [];
    assert BranchName("") == "";
  }

  /** Reading a line of the remote listing: a branch of origin by its name, but not main or master, and no pointer. */
  lemma RemoteLineRead(b: string)
    requires b != "" && Trimmed(b)
    ensures RemoteName("  origin/" + b) ==
            if Contains("origin/" + b, "->") || b == "main" || b == "master" then None else Some(b)
  {
    hide IsSpace, Contains, TrimSpace;
    var l := "origin/" + b;
    assert "  origin/" + b == "  " + l;
    OriginTrimmed(b);
    TrimAfterSpaces(l);
    Stripped("origin/", b);
    SameOnOrigin(b, "main");
    SameOnOrigin(b, "master");
    assert "origin/" + "main" == "origin/main" && "origin/" + "master" == "origin/master";
  }

  lemma OriginTrimmed(b: string)
    requires b != "" && Trimmed(b)
    ensures Trimmed("origin/" + b)
  {
    var l := "origin/" + b;
    assert l[0] == 'o' && l[|l| - 1] == b[|b| - 1];
  }

  lemma SameOnOrigin(a: string, b: string)
    ensures "origin/" + a == "origin/" + b <==> a == b
  {
    assert ("origin/" + a)[7..] == a && ("origin/" + b)[7..] == b;
  }

  // ---------------------------------------------------------------- exactly what a dry run reports

  /** The k-th command asked for the branch's own commits, and git found none. */
  predicate EmptyLog(git: Git, issued: seq<Command>, k: nat, b: string)
    requires k < |issued|
  {
    issued[k] == CherryLog(b) && git(issued[..k], CherryLog(b)).Out? && TrimSpace(git(issued[..k], CherryLog(b)).text) == ""
  }

  predicate FoundEmpty(git: Git, issued: seq<Command>, from: nat, b: string) {
    exists k :: from <= k < |issued| && EmptyLog(git, issued, k, b)
  }

  /** What follows in the log does not change what was found before. */
  lemma FoundEmptyLater(git: Git, issued: seq<Command>, later: seq<Command>, from: nat, b: string)
    requires issued <= later
    ensures FoundEmpty(git, issued, from, b) ==> FoundEmpty(git, later, from, b)
    ensures FoundEmpty(git, later, from, b) <==> FoundEmpty(git, issued, from, b) || FoundEmpty(git, later, if from < |issued| then |issued| else from, b)
  {
    hide TrimSpace;
    assert forall k :: 0 <= k < |issued| ==> later[k] == issued[k] && later[..k] == issued[..k];
    assert forall k :: 0 <= k < |issued| ==> (EmptyLog(git, issued, k, b) <==> EmptyLog(git, later, k, b));
  }

  lemma {:induction false} DryLocalPass(git: Git, current: string, p: Progress, bs: seq<string>, b: string)
    requires p.result.dryRun
    ensures var q := LocalPass(git, current, p, bs);
            && q.issued == p.issued
            && (b in q.result.localDeleted <==> b in p.result.localDeleted || (b in bs && !Protected(b) && b != current))
    decreases bs
  {
    hide Protected;
    if bs != [] {
      DryLocalPass(git, current, LocalStep(git, current, p, bs[0]), bs[1..], b);
      assert bs == [bs[0]] + bs[1..];
    }
  }

  lemma DrySquashStep(git: Git, current: string, p: Progress, x: string, b: string)
    requires p.result.dryRun
    ensures var q := SquashStep(git, current, p, x);
            && q.result.dryRun && p.issued <= q.issued
            && (b in q.result.localDeleted <==> b in p.result.localDeleted || FoundEmpty(git, q.issued, |p.issued|, b))
            && (FoundEmpty(git, q.issued, |p.issued|, b) ==> b == x && !Protected(b) && b != current)
  {
    hide Protected, TrimSpace;
    var q := SquashStep(git, current, p, x);
    if |q.issued| > |p.issued| {
      assert q.issued == p.issued + [CherryLog(x)] && q.issued[..|p.issued|] == p.issued;
      assert EmptyLog(git, q.issued, |p.issued|, x) <==> git(p.issued, CherryLog(x)).Out? && TrimSpace(git(p.issued, CherryLog(x)).text) == "";
    }
  }

  lemma {:induction false} DrySquashPass(git: Git, current: string, p: Progress, bs: seq<string>, b: string)
    requires p.result.dryRun
    ensures var q := SquashPass(git, current, p, bs);
            && p.issued <= q.issued
            && (b in q.result.localDeleted <==> b in p.result.localDeleted || FoundEmpty(git, q.issued, |p.issued|, b))
            && (FoundEmpty(git, q.issued, |p.issued|, b) ==> b in bs && !Protected(b) && b != current)
    decreases bs
  {
    hide Protected, FoundEmpty, SquashStep;
    if bs == [] {
      NoneFound(git, p.issued, b);
    } else {
      var mid := SquashStep(git, current, p, bs[0]);
      DrySquashStep(git, current, p, bs[0], b);
      DrySquashPass(git, current, mid, bs[1..], b);
      var q := SquashPass(git, current, p, bs);
      FoundEmptyLater(git, mid.issued, q.issued, |p.issued|, b);
      NoneFound(git, q.issued, b);
      assert bs == [bs[0]] + bs[1..];
    }
  }

  lemma NoneFound(git: Git, issued: seq<Command>, b: string)
    ensures !FoundEmpty(git, issued, |issued|, b)
  {
  }

  /** The unmerged branches as a dry run learns them. */
  function UnmergedBranches(git: Git, opts: Options): Option<seq<string>> {
    if CurrentBranch(git, opts).None? || !opts.detectSquashMerged || (opts.deleteLocalMerged && MergedBranches(git, opts).None?) then None
    else
      var r := git(Opening(opts) + (if opts.deleteLocalMerged then [MergedLocal] else []), NotMergedLocal);
      if r.Failed? then None else Some(ParseBranches(r.text))
  }

  /** The commands that lead up to the current branch. */
  function Opening(opts: Options): seq<Command> {
    (if opts.pruneStaleTracking then [FetchPrune] else []) + [ShowCurrent]
  }

  /** In the log up to here no branch was asked for. */
  predicate NoCherry(issued: seq<Command>) { forall k :: 0 <= k < |issued| ==> !issued[k].CherryLog? }

  lemma NoCherryNone(git: Git, issued: seq<Command>, b: string)
    requires NoCherry(issued)
    ensures !FoundEmpty(git, issued, 0, b)
  {
  }

  lemma DryLocalStage(git: Git, opts: Options, current: string, p: Progress, b: string)
    requires p.result.dryRun && p.result.localDeleted == [] && p.result.err.None?
    requires p.issued == Opening(opts) && CurrentBranch(git, opts) == Some(current)
    ensures var l := LocalStage(git, opts, current, p);
            var merged := MergedBranches(git, opts);
            && l.result.dryRun && NoCherry(l.issued)
            && (b in l.result.localDeleted <==> merged.Some? && b in merged.value && !Protected(b) && b != current)
            && (l.result.err.Some? <==> opts.deleteLocalMerged && merged.None?)
            && (l.result.err.None? ==> l.issued == Opening(opts) + if opts.deleteLocalMerged then [MergedLocal] else [])
  {
    hide Protected, ParseBranches, LocalPass, CurrentBranch;
    StagesKeepMode(git, opts);
    var r := git(p.issued, MergedLocal);
    if opts.deleteLocalMerged && r.Out? {
      DryLocalPass(git, current, Issue(p, MergedLocal), ParseBranches(r.text), b);
      PassKeepsErr(git, current, Issue(p, MergedLocal), ParseBranches(r.text));
    }
  }

  lemma DrySquashStage(git: Git, opts: Options, current: string, p: Progress, b: string)
    requires p.result.dryRun && CurrentBranch(git, opts) == Some(current) && NoCherry(p.issued)
    requires !(opts.deleteLocalMerged && MergedBranches(git, opts).None?)
    requires p.issued == Opening(opts) + if opts.deleteLocalMerged then [MergedLocal] else []
    ensures var q := SquashStage(git, opts, current, p);
            var unmerged := UnmergedBranches(git, opts);
            && q.result.dryRun
            && (b in q.result.localDeleted <==> b in p.result.localDeleted || FoundEmpty(git, q.issued, 0, b))
            && (FoundEmpty(git, q.issued, 0, b) ==> unmerged.Some? && b in unmerged.value && !Protected(b) && b != current)
  {
    hide Protected, ParseBranches, SquashPass, CurrentBranch, MergedBranches, FoundEmpty;
    StagesKeepMode(git, opts);
    var q := SquashStage(git, opts, current, p);
    NoCherryNone(git, p.issued, b);
    if opts.detectSquashMerged {
      var r, asked := git(p.issued, NotMergedLocal), Issue(p, NotMergedLocal);
      NoCherryNone(git, asked.issued, b);
      if r.Out? {
        DrySquashPass(git, current, asked, ParseBranches(r.text), b);
        FoundEmptyLater(git, asked.issued, q.issued, 0, b);
      }
    }
  }

  lemma {:induction false} DryRemotePass(git: Git, p: Progress, bs: seq<string>)
    requires p.result.dryRun
    ensures var q := RemotePass(git, p, bs); q.issued == p.issued && q.result.localDeleted == p.result.localDeleted
    decreases bs
  {
    if bs != [] { DryRemotePass(git, RemoteStep(git, p, bs[0]), bs[1..]); }
  }

  lemma DryRemoteStage(git: Git, opts: Options, p: Progress, b: string)
    requires p.result.dryRun
    ensures var q := RemoteStage(git, opts, p);
            q.result.localDeleted == p.result.localDeleted && (FoundEmpty(git, q.issued, 0, b) <==> FoundEmpty(git, p.issued, 0, b))
  {
    hide ParseRemoteBranches, RemotePass, FoundEmpty;
    var asked := Issue(p, MergedRemote);
    var r := git(p.issued, MergedRemote);
    FoundEmptyLater(git, p.issued, asked.issued, 0, b);
    RemoteAskedOnly(git, p.issued, b);
    if r.Out? { DryRemotePass(git, asked, ParseRemoteBranches(r.text)); }
  }

  lemma RemoteAskedOnly(git: Git, issued: seq<Command>, b: string)
    ensures !FoundEmpty(git, issued + [MergedRemote], |issued|, b)
  {
  }

  /**
   Exactly which local branches a dry run reports as deleted: those listed as merged, and those
   listed as unmerged for which git found no commit of their own, save the protected ones and the
   current one.
   */
  lemma DryRunReportsExactly(git: Git, repo: string, opts: Options, b: string)
    requires opts.dryRun
    ensures var p := CleanupOf(git, repo, opts);
            var current, merged, unmerged := CurrentBranch(git, opts), MergedBranches(git, opts), UnmergedBranches(git, opts);
            b in p.result.localDeleted <==>
            && current.Some? && !Protected(b) && b != current.value
            && (|| (merged.Some? && b in merged.value)
                || (unmerged.Some? && b in unmerged.value && FoundEmpty(git, p.issued, 0, b)))
  {
    hide Protected, LocalStage, SquashStage, RemoteStage, UnmergedBranches, MergedBranches, FoundEmpty, TrimSpace;
    var p := PruneStage(git, opts, Start(repo, opts));
    var q := Issue(p, ShowCurrent);
    assert p.issued == if opts.pruneStaleTracking then [FetchPrune] else [];
    if CurrentBranch(git, opts).Some? {
      var current := CurrentBranch(git, opts).value;
      assert p.issued + [ShowCurrent] == Opening(opts);
      assert q.issued == Opening(opts);
      DryLocalStage(git, opts, current, q, b);
      var l := LocalStage(git, opts, current, q);
      NoCherryNone(git, l.issued, b);
      assert CleanupOf(git, repo, opts) == Passes(git, opts, current, q);
      if l.result.err.Some? {
        assert CleanupOf(git, repo, opts) == l;
      } else {
        DrySquashStage(git, opts, current, l, b);
        DryRemoteStage(git, opts, SquashStage(git, opts, current, l), b);
      }
    }
  }

  /**
   With a detached head git lists a note where a branch would stand and shows no current branch.
   The note is read as a branch, so the dry run reports it as deleted unless it reads main, master
   or develop.
   */
  lemma DetachedHeadReported(git: Git, repo: string, opts: Options, ls: seq<Listing>, note: string)
    requires opts.dryRun && CurrentBranch(git, opts) == Some("")
    requires (forall i :: 0 <= i < |ls| ==> Nameable(ls[i].name)) && Listing(Here, note) in ls
    requires MergedBranches(git, opts) == Some(ParseBranches(Rendered(ls)))
    ensures note in CleanupOf(git, repo, opts).result.localDeleted <==> !Protected(note)
  {
    hide CleanupOf, CurrentBranch, MergedBranches, UnmergedBranches, Protected, Nameable, ParseBranches, FoundEmpty;
    ListingRead(ls);
    DryRunReportsExactly(git, repo, opts, note);
    var i :| 0 <= i < |ls| && ls[i] == Listing(Here, note);
    assert NamesOf(ls)[i] == note;
    NonEmpty(note);
  }
}
