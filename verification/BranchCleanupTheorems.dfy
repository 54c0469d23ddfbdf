/** What every cleanup run guarantees. */
module BranchCleanupTheorems {
  import opened Wrappers
  import opened GoStrings
  import opened BranchCleanup

  // ---------------------------------------------------------------- reading the command log

  /** The branch a command deletes, on the chosen side. */
  function Target(c: Command, remote: bool): Option<string> {
    match c
    case DeleteLocal(b) => if remote then None else Some(b)
    case DeleteRemote(b) => if remote then Some(b) else None
    case _ => None
  }

  predicate Deletes(c: Command) { c.DeleteLocal? || c.DeleteRemote? }

  /** The branches whose deletion was attempted, in order. */
  function Attempts(issued: seq<Command>, remote: bool): seq<string> {
    if issued == [] then []
    else
      var n := |issued| - 1;
      var t := Target(issued[n], remote);
      Attempts(issued[..n], remote) + if t.Some? then [t.value] else []
  }

  /** The branches git did delete, in order. */
  function Deleted(git: Git, issued: seq<Command>, remote: bool): seq<string> {
    if issued == [] then []
    else
      var n := |issued| - 1;
      var t := Target(issued[n], remote);
      Deleted(git, issued[..n], remote) + if t.Some? && git(issued[..n], issued[n]).Out? then [t.value] else []
  }

  lemma OneMore(git: Git, issued: seq<Command>, c: Command, remote: bool)
    ensures var t := Target(c, remote);
            && Attempts(issued + [c], remote) == Attempts(issued, remote) + (if t.Some? then [t.value] else [])
            && Deleted(git, issued + [c], remote) == Deleted(git, issued, remote) + (if t.Some? && git(issued, c).Out? then [t.value] else [])
  {
    assert (issued + [c])[..|issued|] == issued;
  }

  // ---------------------------------------------------------------- an invariant, carried through a run

  /**
   What holds after every step of a run on the branch `current`: a wet run reports exactly what git
   deleted and the commands never name a protected or the current branch; a dry run deletes nothing.
   */
  ghost predicate Sound(git: Git, current: Option<string>, p: Progress) {
    && (!p.result.dryRun ==> p.result.localDeleted == Deleted(git, p.issued, false) && p.result.remoteDeleted == Deleted(git, p.issued, true))
    && (p.result.dryRun ==> forall c :: c in p.issued ==> !Deletes(c))
    && (forall c :: c in p.issued && c.DeleteLocal? ==> current.Some? && !Protected(c.branch) && c.branch != current.value)
  }

  lemma IssueSound(git: Git, current: Option<string>, p: Progress, c: Command)
    requires Sound(git, current, p) && !Deletes(c)
    ensures Sound(git, current, Issue(p, c))
  {
    hide Protected;
    OneMore(git, p.issued, c, false);
    OneMore(git, p.issued, c, true);
  }

  lemma DeleteSound(git: Git, current: string, p: Progress, b: string)
    requires Sound(git, Some(current), p) && !Protected(b) && b != current
    ensures Sound(git, Some(current), DeleteBranch(git, p, b))
  {
    hide Protected, Deleted;
    OneMore(git, p.issued, DeleteLocal(b), false);
    OneMore(git, p.issued, DeleteLocal(b), true);
  }

  lemma RemoteSound(git: Git, current: string, p: Progress, b: string)
    requires Sound(git, Some(current), p)
    ensures Sound(git, Some(current), RemoteStep(git, p, b))
  {
    hide Protected, Deleted;
    OneMore(git, p.issued, DeleteRemote(b), false);
    OneMore(git, p.issued, DeleteRemote(b), true);
  }

  lemma {:induction false} PassesSound(git: Git, current: string, p: Progress, bs: seq<string>)
    requires Sound(git, Some(current), p)
    ensures Sound(git, Some(current), LocalPass(git, current, p, bs))
    ensures Sound(git, Some(current), SquashPass(git, current, p, bs))
    ensures Sound(git, Some(current), RemotePass(git, p, bs))
    decreases bs
  {
    hide Protected, Deleted, TrimSpace, DeleteBranch, RemoteStep;
    if bs != [] {
      var b := bs[0];
      if !Protected(b) && b != current {
        DeleteSound(git, current, p, b);
        IssueSound(git, Some(current), p, CherryLog(b));
        DeleteSound(git, current, Issue(p, CherryLog(b)), b);
      }
      RemoteSound(git, current, p, b);
      PassesSound(git, current, LocalStep(git, current, p, b), bs[1..]);
      PassesSound(git, current, SquashStep(git, current, p, b), bs[1..]);
      PassesSound(git, current, RemoteStep(git, p, b), bs[1..]);
    }
  }

  lemma StagesSound(git: Git, opts: Options, current: string, p: Progress)
    requires Sound(git, Some(current), p)
    ensures Sound(git, Some(current), LocalStage(git, opts, current, p))
    ensures Sound(git, Some(current), SquashStage(git, opts, current, p))
    ensures Sound(git, Some(current), RemoteStage(git, opts, p))
  {
    hide Protected, Deleted, ParseBranches, ParseRemoteBranches, LocalPass, SquashPass, RemotePass;
    IssueSound(git, Some(current), p, MergedLocal);
    IssueSound(git, Some(current), p, NotMergedLocal);
    IssueSound(git, Some(current), p, MergedRemote);
    forall q: Progress, bs | Sound(git, Some(current), q)
      ensures Sound(git, Some(current), LocalPass(git, current, q, bs))
      ensures Sound(git, Some(current), SquashPass(git, current, q, bs))
      ensures Sound(git, Some(current), RemotePass(git, q, bs))
    {
      PassesSound(git, current, q, bs);
    }
  }

  /** The current branch as the run learns it, if it gets that far. */
  function CurrentBranch(git: Git, opts: Options): Option<string> {
    if opts.pruneStaleTracking && git([], FetchPrune).Failed? then None
    else
      var r := git(if opts.pruneStaleTracking then [FetchPrune] else [], ShowCurrent);
      if r.Failed? then None else Some(TrimSpace(r.text))
  }

  lemma RunSound(git: Git, repo: string, opts: Options)
    ensures Sound(git, CurrentBranch(git, opts), CleanupOf(git, repo, opts))
  {
    hide Protected, TrimSpace, LocalStage, SquashStage, RemoteStage;
    var current := CurrentBranch(git, opts);
    var p := Start(repo, opts);
    assert Sound(git, current, p);
    IssueSound(git, current, p, FetchPrune);
    if opts.pruneStaleTracking {
      assert Issue(p, FetchPrune).issued == [FetchPrune];
    }
    var q := PruneStage(git, opts, p);
    if q.result.err.None? {
      IssueSound(git, current, q, ShowCurrent);
      if current.Some? {
        forall r: Progress | Sound(git, current, r)
          ensures Sound(git, current, LocalStage(git, opts, current.value, r))
          ensures Sound(git, current, SquashStage(git, opts, current.value, r))
          ensures Sound(git, current, RemoteStage(git, opts, r))
        {
          StagesSound(git, opts, current.value, r);
        }
      }
    }
  }

  /** No `branch -d` is ever issued for main, master, develop or the branch checked out. */
  lemma ProtectedNeverDeleted(git: Git, repo: string, opts: Options, b: string)
    ensures DeleteLocal(b) in CleanupOf(git, repo, opts).issued ==>
              b !in {"main", "master", "develop"} && Some(b) != CurrentBranch(git, opts)
  {
    hide CleanupOf, CurrentBranch;
    RunSound(git, repo, opts);
  }

  /** A dry run issues no deleting command. */
  lemma DryRunOnlyReads(git: Git, repo: string, opts: Options, b: string)
    requires opts.dryRun
    ensures DeleteLocal(b) !in CleanupOf(git, repo, opts).issued
    ensures DeleteRemote(b) !in CleanupOf(git, repo, opts).issued
  {
    hide CleanupOf, CurrentBranch;
    RunSound(git, repo, opts);
    ModeKept(git, repo, opts);
  }

  /** A wet run reports as deleted exactly what git deleted, in order. */
  lemma WetRunReportsDeletions(git: Git, repo: string, opts: Options)
    requires !opts.dryRun
    ensures var p := CleanupOf(git, repo, opts);
            && p.result.localDeleted == Deleted(git, p.issued, false)
            && p.result.remoteDeleted == Deleted(git, p.issued, true)
  {
    hide CleanupOf, CurrentBranch;
    RunSound(git, repo, opts);
    ModeKept(git, repo, opts);
  }

  lemma ModeKept(git: Git, repo: string, opts: Options)
    ensures CleanupOf(git, repo, opts).result.dryRun == opts.dryRun
  {
    hide LocalStage, SquashStage, RemoteStage, TrimSpace;
    StagesKeepMode(git, opts);
  }

  // ---------------------------------------------------------------- every deletion has a cause

  /** Git listed the branch when asked with `listing`, before position `k`. */
  ghost predicate Listed(git: Git, issued: seq<Command>, k: nat, b: string)
    requires k < |issued|
  {
    exists j :: 0 <= j < k && issued[j] == MergedLocal && git(issued[..j], MergedLocal).Out? &&
                b in ParseBranches(git(issued[..j], MergedLocal).text)
  }

  ghost predicate ListedRemote(git: Git, issued: seq<Command>, k: nat, b: string)
    requires k < |issued|
  {
    exists j :: 0 <= j < k && issued[j] == MergedRemote && git(issued[..j], MergedRemote).Out? &&
                b in ParseRemoteBranches(git(issued[..j], MergedRemote).text)
  }

  /** The command just before asked for the branch's own commits, and git found none. */
  predicate NothingOwn(git: Git, issued: seq<Command>, k: nat, b: string)
    requires k < |issued|
  {
    k > 0 && issued[k - 1] == CherryLog(b) && git(issued[..k - 1], CherryLog(b)).Out? &&
    TrimSpace(git(issued[..k - 1], CherryLog(b)).text) == ""
  }

  ghost predicate Caused(git: Git, issued: seq<Command>, k: nat)
    requires k < |issued|
  {
    match issued[k]
    case DeleteLocal(b) => Listed(git, issued, k, b) || NothingOwn(git, issued, k, b)
    case DeleteRemote(b) => ListedRemote(git, issued, k, b)
    case _ => true
  }

  ghost predicate AllCaused(git: Git, issued: seq<Command>) {
    forall k :: 0 <= k < |issued| ==> Caused(git, issued, k)
  }

  lemma CausedStays(git: Git, issued: seq<Command>, c: Command)
    requires AllCaused(git, issued)
    requires Caused(git, issued + [c], |issued|)
    ensures AllCaused(git, issued + [c])
  {
    hide ParseBranches, ParseRemoteBranches, TrimSpace;
    var more := issued + [c];
    assert forall j :: 0 <= j <= |issued| ==> more[..j] == issued[..j];
    forall k | 0 <= k < |issued| ensures Caused(git, more, k) {
      assert Caused(git, issued, k);
      assert more[k] == issued[k];
    }
  }

  lemma QueryCaused(git: Git, p: Progress, c: Command)
    requires AllCaused(git, p.issued) && !Deletes(c)
    ensures AllCaused(git, Issue(p, c).issued)
  {
    CausedStays(git, p.issued, c);
  }

  /** The listing at position `j` of the log. */
  ghost predicate ListedAt(git: Git, issued: seq<Command>, j: nat, bs: seq<string>) {
    && j < |issued| && issued[j] == MergedLocal && git(issued[..j], MergedLocal).Out?
    && forall b :: b in bs ==> b in ParseBranches(git(issued[..j], MergedLocal).text)
  }

  lemma {:induction false} LocalPassCaused(git: Git, current: string, p: Progress, bs: seq<string>, j: nat)
    requires AllCaused(git, p.issued) && ListedAt(git, p.issued, j, bs)
    ensures AllCaused(git, LocalPass(git, current, p, bs).issued)
    decreases bs
  {
    hide ParseBranches, Protected;
    if bs != [] {
      var b, q := bs[0], LocalStep(git, current, p, bs[0]);
      var more := p.issued + [DeleteLocal(b)];
      assert more[..j] == p.issued[..j];
      assert Listed(git, more, |p.issued|, b);
      CausedStays(git, p.issued, DeleteLocal(b));
      LocalPassCaused(git, current, q, bs[1..], j);
    }
  }

  lemma {:induction false} SquashPassCaused(git: Git, current: string, p: Progress, bs: seq<string>)
    requires AllCaused(git, p.issued)
    ensures AllCaused(git, SquashPass(git, current, p, bs).issued)
    decreases bs
  {
    hide TrimSpace, Protected, AllCaused;
    if bs != [] {
      var b := bs[0];
      QueryCaused(git, p, CherryLog(b));
      var q := Issue(p, CherryLog(b));
      var more := q.issued + [DeleteLocal(b)];
      var r := git(p.issued, CherryLog(b));
      assert more[..|p.issued|] == p.issued && more[|q.issued| - 1] == CherryLog(b);
      if r.Out? && TrimSpace(r.text) == "" {
        assert NothingOwn(git, more, |q.issued|, b);
        CausedStays(git, q.issued, DeleteLocal(b));
      }
      SquashPassCaused(git, current, SquashStep(git, current, p, b), bs[1..]);
    }
  }

  ghost predicate RemoteListedAt(git: Git, issued: seq<Command>, j: nat, bs: seq<string>) {
    && j < |issued| && issued[j] == MergedRemote && git(issued[..j], MergedRemote).Out?
    && forall b :: b in bs ==> b in ParseRemoteBranches(git(issued[..j], MergedRemote).text)
  }

  lemma {:induction false} RemotePassCaused(git: Git, p: Progress, bs: seq<string>, j: nat)
    requires AllCaused(git, p.issued) && RemoteListedAt(git, p.issued, j, bs)
    ensures AllCaused(git, RemotePass(git, p, bs).issued)
    decreases bs
  {
    hide ParseRemoteBranches;
    if bs != [] {
      var b, q := bs[0], RemoteStep(git, p, bs[0]);
      var more := p.issued + [DeleteRemote(b)];
      assert more[..j] == p.issued[..j];
      assert ListedRemote(git, more, |p.issued|, b);
      CausedStays(git, p.issued, DeleteRemote(b));
      RemotePassCaused(git, q, bs[1..], j);
    }
  }

  lemma StagesCaused(git: Git, opts: Options, current: string, p: Progress)
    requires AllCaused(git, p.issued)
    ensures AllCaused(git, LocalStage(git, opts, current, p).issued)
    ensures AllCaused(git, SquashStage(git, opts, current, p).issued)
    ensures AllCaused(git, RemoteStage(git, opts, p).issued)
  {
    hide AllCaused, ParseBranches, ParseRemoteBranches, LocalPass, SquashPass, RemotePass;
    var n := |p.issued|;
    QueryCaused(git, p, MergedLocal);
    QueryCaused(git, p, NotMergedLocal);
    QueryCaused(git, p, MergedRemote);
    var l := git(p.issued, MergedLocal);
    if l.Out? {
      assert Issue(p, MergedLocal).issued[..n] == p.issued;
      LocalPassCaused(git, current, Issue(p, MergedLocal), ParseBranches(l.text), n);
    }
    var s := git(p.issued, NotMergedLocal);
    if s.Out? { SquashPassCaused(git, current, Issue(p, NotMergedLocal), ParseBranches(s.text)); }
    var r := git(p.issued, MergedRemote);
    if r.Out? {
      assert Issue(p, MergedRemote).issued[..n] == p.issued;
      RemotePassCaused(git, Issue(p, MergedRemote), ParseRemoteBranches(r.text), n);
    }
  }

  /**
   Nothing is deleted without cause: a local branch only when git listed it as merged or reported no
   commit of its own just before, a remote branch only when git listed it as merged.
   */
  lemma DeletionsCaused(git: Git, repo: string, opts: Options)
    ensures AllCaused(git, CleanupOf(git, repo, opts).issued)
  {
    hide AllCaused, TrimSpace, LocalStage, SquashStage, RemoteStage;
    var p := Start(repo, opts);
    assert AllCaused(git, p.issued) by { NothingIssued(git); }
    QueryCaused(git, p, FetchPrune);
    var q := PruneStage(git, opts, p);
    QueryCaused(git, q, ShowCurrent);
    var r := git(q.issued, ShowCurrent);
    if r.Out? {
      var current := TrimSpace(r.text);
      q := Issue(q, ShowCurrent);
      StagesCaused(git, opts, current, q);
      q := LocalStage(git, opts, current, q);
      StagesCaused(git, opts, current, q);
      q := SquashStage(git, opts, current, q);
      StagesCaused(git, opts, current, q);
    }
  }

  lemma NothingIssued(git: Git)
    ensures AllCaused(git, [])
  {
  }

  lemma {:induction false} RemoteNamesFrom(lines: seq<string>, b: string)
    requires b in RemoteNames(lines)
    ensures exists i :: 0 <= i < |lines| && RemoteName(lines[i]) == Some(b)
  {
    hide RemoteName;
    var n := |lines| - 1;
    if b in RemoteNames(lines[..n]) {
      RemoteNamesFrom(lines[..n], b);
      var i :| 0 <= i < n && RemoteName(lines[..n][i]) == Some(b);
      assert RemoteName(lines[i]) == Some(b);
    }
  }

  /** Git lists every remote branch with its remote, any remote, in front of a slash. */
  ghost predicate Qualified(git: Git) {
    forall h :: git(h, MergedRemote).Out? ==>
                forall i :: 0 <= i < |Split(git(h, MergedRemote).text, '\n')| ==>
                            SlashedOrBlank(Split(git(h, MergedRemote).text, '\n')[i])
  }

  predicate SlashedOrBlank(line: string) { TrimSpace(line) == "" || '/' in TrimSpace(line) }

  lemma OriginOrWhole(l: string, b: string)
    requires TrimPrefix(l, "origin/") == b
    ensures l == "origin/" + b || l == b
  {
  }

  lemma MainNotNamed(line: string)
    requires SlashedOrBlank(line)
    ensures RemoteName(line) != Some("main") && RemoteName(line) != Some("master")
  {
    hide TrimSpace, Contains, TrimPrefix;
    var l := TrimSpace(line);
    if RemoteName(line) == Some("main") { OriginOrWhole(l, "main"); }
    if RemoteName(line) == Some("master") { OriginOrWhole(l, "master"); }
  }

  /** Main and master of origin are never pushed for deletion, whatever other remotes there are. */
  lemma RemoteMainKept(git: Git, repo: string, opts: Options, b: string)
    requires Qualified(git)
    ensures DeleteRemote(b) in CleanupOf(git, repo, opts).issued ==> b != "main" && b != "master"
  {
    hide CleanupOf, RemoteName, SlashedOrBlank, RemoteNames;
    DeletionsCaused(git, repo, opts);
    var issued := CleanupOf(git, repo, opts).issued;
    if k :| 0 <= k < |issued| && issued[k] == DeleteRemote(b) {
      assert Caused(git, issued, k);
      var j :| 0 <= j < k && issued[j] == MergedRemote && git(issued[..j], MergedRemote).Out? &&
               b in ParseRemoteBranches(git(issued[..j], MergedRemote).text);
      var lines := Split(git(issued[..j], MergedRemote).text, '\n');
      RemoteNamesFrom(lines, b);
      var i :| 0 <= i < |lines| && RemoteName(lines[i]) == Some(b);
      MainNotNamed(lines[i]);
    }
  }

  // ---------------------------------------------------------------- accounting

  lemma LocalStepAccounts(git: Git, current: string, p: Progress, b: string)
    ensures var q := LocalStep(git, current, p, b);
            multiset(q.result.localDeleted) + multiset(q.result.skipped) ==
            multiset(p.result.localDeleted) + multiset(p.result.skipped) + multiset{b}
  {
    hide Protected;
  }

  lemma {:induction false} LocalPassAccounts(git: Git, current: string, p: Progress, bs: seq<string>)
    ensures var q := LocalPass(git, current, p, bs);
            multiset(q.result.localDeleted) + multiset(q.result.skipped) ==
            multiset(p.result.localDeleted) + multiset(p.result.skipped) + multiset(bs)
    decreases bs
  {
    hide Protected;
    if bs != [] {
      hide LocalStep;
      LocalStepAccounts(git, current, p, bs[0]);
      LocalPassAccounts(git, current, LocalStep(git, current, p, bs[0]), bs[1..]);
      assert bs == [bs[0]] + bs[1..];
    }
  }

  predicate Extends(p: Result, q: Result) {
    p.localDeleted <= q.localDeleted && p.skipped <= q.skipped && p.remoteDeleted <= q.remoteDeleted
  }

  lemma {:induction false} LaterPassesExtend(git: Git, current: string, p: Progress, bs: seq<string>)
    ensures Extends(p.result, SquashPass(git, current, p, bs).result)
    ensures Extends(p.result, RemotePass(git, p, bs).result)
    decreases bs
  {
    hide Protected, TrimSpace;
    if bs != [] {
      LaterPassesExtend(git, current, SquashStep(git, current, p, bs[0]), bs[1..]);
      LaterPassesExtend(git, current, RemoteStep(git, p, bs[0]), bs[1..]);
    }
  }

  /** The merged branches as the run learns them. */
  function MergedBranches(git: Git, opts: Options): Option<seq<string>> {
    if CurrentBranch(git, opts).None? || !opts.deleteLocalMerged then None
    else
      var r := git((if opts.pruneStaleTracking then [FetchPrune] else []) + [ShowCurrent], MergedLocal);
      if r.Failed? then None else Some(ParseBranches(r.text))
  }

  /**
   Every listed merged branch is accounted for, once per listing: `l` are the first of the branches
   reported deleted and `s` the first of those skipped, and together they are the listing.
   */
  lemma MergedBranchesAccounted(git: Git, repo: string, opts: Options) returns (l: seq<string>, s: seq<string>)
    requires MergedBranches(git, opts).Some?
    ensures var r := CleanupOf(git, repo, opts).result;
            && l <= r.localDeleted && s <= r.skipped
            && multiset(l) + multiset(s) == multiset(MergedBranches(git, opts).value)
  {
    hide TrimSpace, ParseBranches, ParseRemoteBranches, LocalPass, SquashPass, RemotePass;
    var p := PruneStage(git, opts, Start(repo, opts));
    var past := if opts.pruneStaleTracking then [FetchPrune] else [];
    assert p.issued == past;
    var q := Issue(p, ShowCurrent);
    assert q.issued == past + [ShowCurrent];
    var current := CurrentBranch(git, opts).value;
    var names := MergedBranches(git, opts).value;
    var q' := Issue(q, MergedLocal);
    var done := LocalPass(git, current, q', names);
    LocalPassAccounts(git, current, q', names);
    PassKeepsErr(git, current, q', names);
    l, s := done.result.localDeleted, done.result.skipped;
    forall r: Progress, bs
      ensures Extends(r.result, SquashPass(git, current, r, bs).result)
      ensures Extends(r.result, RemotePass(git, r, bs).result)
    {
      LaterPassesExtend(git, current, r, bs);
    }
    assert Extends(done.result, SquashStage(git, opts, current, done).result);
  }

  lemma {:induction false} PassKeepsErr(git: Git, current: string, p: Progress, bs: seq<string>)
    ensures LocalPass(git, current, p, bs).result.err == p.result.err
    decreases bs
  {
    hide Protected;
    if bs != [] { PassKeepsErr(git, current, LocalStep(git, current, p, bs[0]), bs[1..]); }
  }

  /** Branch names as the result lists skipped remote branches. */
  function OnOrigin(bs: seq<string>): (r: seq<string>)
    ensures |r| == |bs| && forall i :: 0 <= i < |bs| ==> r[i] == "origin/" + bs[i]
  {
    seq(|bs|, i requires 0 <= i < |bs| => "origin/" + bs[i])
  }

  lemma RemoteStepReports(git: Git, p: Progress, b: string)
    ensures var q := RemoteStep(git, p, b).result;
            && q.dryRun == p.result.dryRun && q.localDeleted == p.result.localDeleted
            && (|| (q.remoteDeleted == p.result.remoteDeleted + [b] && q.skipped == p.result.skipped)
                || (!q.dryRun && q.remoteDeleted == p.result.remoteDeleted && q.skipped == p.result.skipped + OnOrigin([b])))
  {
    assert OnOrigin([b]) == ["origin/" + b];
  }

  /** The new reports of a pass: `deleted` as deleted and `kept`, named on origin, as skipped. */
  ghost predicate Reports(p: Result, r: Result, bs: seq<string>, deleted: seq<string>, kept: seq<string>) {
    && r.remoteDeleted == p.remoteDeleted + deleted
    && r.skipped == p.skipped + OnOrigin(kept)
    && r.localDeleted == p.localDeleted
    && multiset(deleted) + multiset(kept) == multiset(bs)
    && (p.dryRun ==> deleted == bs)
  }

  lemma OneMoreReport(p: Result, q: Result, r: Result, b: string, rest: seq<string>, d: seq<string>, k: seq<string>)
    returns (deleted: seq<string>, kept: seq<string>)
    requires Reports(q, r, rest, d, k) && q.dryRun == p.dryRun && q.localDeleted == p.localDeleted
    requires || (q.remoteDeleted == p.remoteDeleted + [b] && q.skipped == p.skipped)
             || (!q.dryRun && q.remoteDeleted == p.remoteDeleted && q.skipped == p.skipped + OnOrigin([b]))
    ensures Reports(p, r, [b] + rest, deleted, kept)
  {
    if q.remoteDeleted == p.remoteDeleted + [b] && q.skipped == p.skipped {
      deleted, kept := [b] + d, k;
      assert (p.remoteDeleted + [b]) + d == p.remoteDeleted + ([b] + d);
    } else {
      deleted, kept := d, [b] + k;
      assert OnOrigin([b] + k) == OnOrigin([b]) + OnOrigin(k);
      assert (p.skipped + OnOrigin([b])) + OnOrigin(k) == p.skipped + (OnOrigin([b]) + OnOrigin(k));
    }
  }

  /** The remote pass accounts for every branch it is given, in listing order on each side. */
  lemma {:induction false} RemoteBranchesAccounted(git: Git, p: Progress, bs: seq<string>) returns (deleted: seq<string>, kept: seq<string>)
    ensures Reports(p.result, RemotePass(git, p, bs).result, bs, deleted, kept)
    decreases bs
  {
    hide RemoteStep;
    deleted, kept := [], [];
    if bs == [] {
      assert OnOrigin([]) == [];
      assert p.result.skipped + [] == p.result.skipped && p.result.remoteDeleted + [] == p.result.remoteDeleted;
    } else {
      var q := RemoteStep(git, p, bs[0]);
      RemoteStepReports(git, p, bs[0]);
      var d, k := RemoteBranchesAccounted(git, q, bs[1..]);
      assert bs == [bs[0]] + bs[1..];
      deleted, kept := OneMoreReport(p.result, q.result, RemotePass(git, p, bs).result, bs[0], bs[1..], d, k);
    }
  }
}
