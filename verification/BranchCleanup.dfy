/** The branch cleanup: git commands issued to one repository, and what they report. */
module BranchCleanup {
  import opened Wrappers
  import opened GoStrings

  /** The git invocations the cleanup makes. */
  datatype Command =
    | FetchPrune                    // fetch --prune origin
    | ShowCurrent                   // branch --show-current
    | MergedLocal                   // branch --merged main
    | NotMergedLocal                // branch --no-merged main
    | CherryLog(branch: string)     // log --oneline --cherry-pick --right-only main...<branch>
    | DeleteLocal(branch: string)   // branch -d <branch>
    | MergedRemote                  // branch -r --merged origin/main
    | DeleteRemote(branch: string)  // push origin --delete <branch>

  datatype Reply = Out(text: string) | Failed(error: string)

  /** What git answers to a command, after the commands before it. */
  type Git = (seq<Command>, Command) -> Reply

  datatype Options = Options(dryRun: bool, pruneStaleTracking: bool, deleteLocalMerged: bool, deleteRemoteMerged: bool,
                             detectSquashMerged: bool)

  datatype Result = Result(repo: string, localDeleted: seq<string>, remoteDeleted: seq<string>, skipped: seq<string>,
                           dryRun: bool, err: Option<string>)

  predicate Protected(b: string) { b == "main" || b == "master" || b == "develop" }

  // ---------------------------------------------------------------- parsing

  function BranchName(line: string): string {
    TrimPrefix(TrimPrefix(TrimSpace(line), "* "), "+ ")
  }

  function Names(lines: seq<string>): seq<string> {
    if lines == [] then []
    else
      var name := BranchName(lines[|lines| - 1]);
      Names(lines[..|lines| - 1]) + if name == "" then [] else [name]
  }

  function ParseBranches(output: string): seq<string> { Names(Split(output, '\n')) }

  /** The name of a remote branch that is up for deletion, or none. */
  function RemoteName(line: string): Option<string> {
    var l := TrimSpace(line);
    if l == "" || Contains(l, "->") || l == "origin/main" || l == "origin/master" then None
    else Some(TrimPrefix(l, "origin/"))
  }

  function RemoteNames(lines: seq<string>): seq<string> {
    if lines == [] then []
    else
      var name := RemoteName(lines[|lines| - 1]);
      RemoteNames(lines[..|lines| - 1]) + if name.None? then [] else [name.value]
  }

  function ParseRemoteBranches(output: string): seq<string> { RemoteNames(Split(output, '\n')) }

  method ParseBranchesLoop(output: string) returns (branches: seq<string>)
    ensures branches == ParseBranches(output)
  {
    hide Split, TrimSpace, TrimPrefix;
    var lines := Split(output, '\n');
    branches := [];
    for i := 0 to |lines|
      invariant branches == Names(lines[..i])
    {
      assert lines[..i + 1][..i] == lines[..i];
      var line := TrimSpace(lines[i]);
      line := TrimPrefix(line, "* ");
      line := TrimPrefix(line, "+ ");
      if line == "" { continue; }
      branches := branches + [line];
    }
    assert lines[..|lines|] == lines;
  }

  method ParseRemoteBranchesLoop(output: string) returns (branches: seq<string>)
    ensures branches == ParseRemoteBranches(output)
  {
    hide Split, TrimSpace, TrimPrefix, Contains;
    var lines := Split(output, '\n');
    branches := [];
    for i := 0 to |lines|
      invariant branches == RemoteNames(lines[..i])
    {
      assert lines[..i + 1][..i] == lines[..i];
      var line := TrimSpace(lines[i]);
      if line == "" { continue; }
      if Contains(line, "->") { continue; }
      if line == "origin/main" || line == "origin/master" { continue; }
      branches := branches + [TrimPrefix(line, "origin/")];
    }
    assert lines[..|lines|] == lines;
  }

  // ---------------------------------------------------------------- one run as a function

  /** The commands issued so far and the result so far. */
  datatype Progress = Progress(issued: seq<Command>, result: Result)

  function Issue(p: Progress, c: Command): Progress { p.(issued := p.issued + [c]) }

  function Stop(p: Progress, error: string): Progress { p.(result := p.result.(err := Some(error))) }

  function AddLocal(p: Progress, b: string): Progress { p.(result := p.result.(localDeleted := p.result.localDeleted + [b])) }

  function AddRemote(p: Progress, b: string): Progress { p.(result := p.result.(remoteDeleted := p.result.remoteDeleted + [b])) }

  function AddSkipped(p: Progress, b: string): Progress { p.(result := p.result.(skipped := p.result.skipped + [b])) }

  function DeleteBranch(git: Git, p: Progress, b: string): Progress {
    if p.result.dryRun then AddLocal(p, b)
    else
      var q := Issue(p, DeleteLocal(b));
      if git(p.issued, DeleteLocal(b)).Out? then AddLocal(q, b) else AddSkipped(q, b)
  }

  function LocalStep(git: Git, current: string, p: Progress, b: string): Progress {
    if Protected(b) || b == current then AddSkipped(p, b) else DeleteBranch(git, p, b)
  }

  function LocalPass(git: Git, current: string, p: Progress, bs: seq<string>): Progress
    decreases bs
  {
    if bs == [] then p else LocalPass(git, current, LocalStep(git, current, p, bs[0]), bs[1..])
  }

  function SquashStep(git: Git, current: string, p: Progress, b: string): Progress {
    if Protected(b) || b == current then p
    else
      var r, q := git(p.issued, CherryLog(b)), Issue(p, CherryLog(b));
      if r.Failed? || TrimSpace(r.text) != "" then q else DeleteBranch(git, q, b)
  }

  function SquashPass(git: Git, current: string, p: Progress, bs: seq<string>): Progress
    decreases bs
  {
    if bs == [] then p else SquashPass(git, current, SquashStep(git, current, p, bs[0]), bs[1..])
  }

  function RemoteStep(git: Git, p: Progress, b: string): Progress {
    if p.result.dryRun then AddRemote(p, b)
    else
      var q := Issue(p, DeleteRemote(b));
      if git(p.issued, DeleteRemote(b)).Out? then AddRemote(q, b) else AddSkipped(q, "origin/" + b)
  }

  function RemotePass(git: Git, p: Progress, bs: seq<string>): Progress
    decreases bs
  {
    if bs == [] then p else RemotePass(git, RemoteStep(git, p, bs[0]), bs[1..])
  }

  function PruneStage(git: Git, opts: Options, p: Progress): Progress {
    if !opts.pruneStaleTracking then p
    else
      var r, q := git(p.issued, FetchPrune), Issue(p, FetchPrune);
      if r.Failed? then Stop(q, r.error) else q
  }

  function LocalStage(git: Git, opts: Options, current: string, p: Progress): Progress {
    if !opts.deleteLocalMerged then p
    else
      var r, q := git(p.issued, MergedLocal), Issue(p, MergedLocal);
      if r.Failed? then Stop(q, r.error) else LocalPass(git, current, q, ParseBranches(r.text))
  }

  function SquashStage(git: Git, opts: Options, current: string, p: Progress): Progress {
    if !opts.detectSquashMerged then p
    else
      var r, q := git(p.issued, NotMergedLocal), Issue(p, NotMergedLocal);
      if r.Failed? then q else SquashPass(git, current, q, ParseBranches(r.text))
  }

  function RemoteStage(git: Git, opts: Options, p: Progress): Progress {
    if !opts.deleteRemoteMerged then p
    else
      var r, q := git(p.issued, MergedRemote), Issue(p, MergedRemote);
      if r.Failed? then Stop(q, r.error) else RemotePass(git, q, ParseRemoteBranches(r.text))
  }

  function Start(repo: string, opts: Options): Progress {
    Progress([], Result(repo, [], [], [], opts.dryRun, None))
  }

  /** The passes once the current branch is known. */
  function Passes(git: Git, opts: Options, current: string, p: Progress): Progress {
    var l := LocalStage(git, opts, current, p);
    if l.result.err.Some? then l else RemoteStage(git, opts, SquashStage(git, opts, current, l))
  }

  function CleanupOf(git: Git, repo: string, opts: Options): Progress {
    var p := PruneStage(git, opts, Start(repo, opts));
    if p.result.err.Some? then p
    else
      var r, q := git(p.issued, ShowCurrent), Issue(p, ShowCurrent);
      if r.Failed? then Stop(q, r.error) else Passes(git, opts, TrimSpace(r.text), q)
  }

  // ---------------------------------------------------------------- the run

  /** Git as seen after some commands have already been issued. */
  function After(git: Git, past: seq<Command>): Git { (h: seq<Command>, c: Command) => git(past + h, c) }

  /** The runner for one repository: its command log and its local branches. */
  class GitRunner {
    const git: Git
    var log: seq<Command>
    var local: set<string>

    constructor (git: Git, local: set<string>)
      ensures this.git == git && log == [] && this.local == local
    {
      this.git, log, this.local := git, [], local;
    }

    /** Runs one command; only a successful `branch -d` changes the local branches. */
    method Run(c: Command) returns (r: Reply)
      modifies this
      ensures r == git(old(log), c) && log == old(log) + [c]
      ensures local == if c.DeleteLocal? && r.Out? then old(local) - {c.branch} else old(local)
    {
      r := git(log, c);
      log := log + [c];
      if c.DeleteLocal? && r.Out? { local := local - {c.branch}; }
    }

    /** Log and branches are where the run should be after `p`, started at `past` with `before`. */
    ghost predicate At(past: seq<Command>, before: set<string>, p: Progress)
      reads this
    {
      && log == past + p.issued
      && local == if p.result.dryRun then before else before - (set b | b in p.result.localDeleted)
    }

    method Delete(b: string, result: Result, ghost past: seq<Command>, ghost before: set<string>, ghost p: Progress)
      returns (result': Result)
      requires At(past, before, p) && result == p.result
      modifies this
      ensures var q := DeleteBranch(After(git, past), p, b); At(past, before, q) && result' == q.result
    {
      if result.dryRun {
        result' := result.(localDeleted := result.localDeleted + [b]);
      } else {
        var r := Run(DeleteLocal(b));
        assert past + p.issued + [DeleteLocal(b)] == past + (p.issued + [DeleteLocal(b)]);
        if r.Failed? {
          result' := result.(skipped := result.skipped + [b]);
        } else {
          result' := result.(localDeleted := result.localDeleted + [b]);
        }
      }
    }

    /** A command that deletes no local branch. */
    method Query(c: Command, ghost past: seq<Command>, ghost before: set<string>, ghost p: Progress) returns (r: Reply)
      requires At(past, before, p) && !c.DeleteLocal?
      modifies this
      ensures r == After(git, past)(p.issued, c) && At(past, before, Issue(p, c))
    {
      r := Run(c);
      assert past + p.issued + [c] == past + (p.issued + [c]);
    }

    method DeleteLocalMerged(opts: Options, current: string, result: Result, ghost past: seq<Command>, ghost before: set<string>, ghost p: Progress)
      returns (result': Result)
      requires At(past, before, p) && result == p.result
      modifies this
      ensures var q := LocalStage(After(git, past), opts, current, p); At(past, before, q) && result' == q.result
    {
      hide After, ParseBranches, Protected, DeleteBranch;
      result' := result;
      if !opts.deleteLocalMerged { return; }
      var r := Query(MergedLocal, past, before, p);
      ghost var q := Issue(p, MergedLocal);
      if r.Failed? { return result.(err := Some(r.error)); }
      var localBranches := ParseBranchesLoop(r.text);
      ghost var done := LocalPass(After(git, past), current, q, localBranches);
      for i := 0 to |localBranches|
        invariant At(past, before, q) && result' == q.result
        invariant LocalPass(After(git, past), current, q, localBranches[i..]) == done
      {
        var b := localBranches[i];
        assert localBranches[i..][0] == b && localBranches[i..][1..] == localBranches[i + 1..];
        ghost var was := q;
        q := LocalStep(After(git, past), current, was, b);
        if Protected(b) || b == current {
          result' := result'.(skipped := result'.skipped + [b]);
          continue;
        }
        result' := Delete(b, result', past, before, was);
      }
    }

    method DeleteSquashMerged(opts: Options, current: string, result: Result, ghost past: seq<Command>, ghost before: set<string>, ghost p: Progress)
      returns (result': Result)
      requires At(past, before, p) && result == p.result
      modifies this
      ensures var q := SquashStage(After(git, past), opts, current, p); At(past, before, q) && result' == q.result
    {
      hide After, ParseBranches, Protected, DeleteBranch, TrimSpace;
      result' := result;
      if !opts.detectSquashMerged { return; }
      var r := Query(NotMergedLocal, past, before, p);
      ghost var q := Issue(p, NotMergedLocal);
      if r.Failed? { return; }
      var candidates := ParseBranchesLoop(r.text);
      ghost var done := SquashPass(After(git, past), current, q, candidates);
      for i := 0 to |candidates|
        invariant At(past, before, q) && result' == q.result
        invariant SquashPass(After(git, past), current, q, candidates[i..]) == done
      {
        var b := candidates[i];
        assert candidates[i..][0] == b && candidates[i..][1..] == candidates[i + 1..];
        ghost var was := q;
        q := SquashStep(After(git, past), current, was, b);
        if Protected(b) || b == current { continue; }
        var cherry := Query(CherryLog(b), past, before, was);
        if cherry.Failed? { continue; }
        if TrimSpace(cherry.text) == "" {
          result' := Delete(b, result', past, before, Issue(was, CherryLog(b)));
        }
      }
    }

    method DeleteRemoteMerged(opts: Options, result: Result, ghost past: seq<Command>, ghost before: set<string>, ghost p: Progress)
      returns (result': Result)
      requires At(past, before, p) && result == p.result
      modifies this
      ensures var q := RemoteStage(After(git, past), opts, p); At(past, before, q) && result' == q.result
    {
      hide After, ParseRemoteBranches;
      result' := result;
      if !opts.deleteRemoteMerged { return; }
      var r := Query(MergedRemote, past, before, p);
      ghost var q := Issue(p, MergedRemote);
      if r.Failed? { return result.(err := Some(r.error)); }
      var remoteBranches := ParseRemoteBranchesLoop(r.text);
      ghost var done := RemotePass(After(git, past), q, remoteBranches);
      for i := 0 to |remoteBranches|
        invariant At(past, before, q) && result' == q.result && q.result.dryRun == p.result.dryRun
        invariant RemotePass(After(git, past), q, remoteBranches[i..]) == done
      {
        var b := remoteBranches[i];
        assert remoteBranches[i..][0] == b && remoteBranches[i..][1..] == remoteBranches[i + 1..];
        ghost var was := q;
        q := RemoteStep(After(git, past), was, b);
        if result'.dryRun {
          result' := result'.(remoteDeleted := result'.remoteDeleted + [b]);
        } else {
          var d := Query(DeleteRemote(b), past, before, was);
          if d.Failed? {
            result' := result'.(skipped := result'.skipped + ["origin/" + b]);
          } else {
            result' := result'.(remoteDeleted := result'.remoteDeleted + [b]);
          }
        }
      }
    }
  }

  /**
   The cleanup of one repository: the commands issued, the result, and the local branches that are
   left: in a wet run all but the ones reported deleted, in a dry run all.
   */
  method CleanupWithOptions(runner: GitRunner, repo: string, opts: Options) returns (result: Result)
    modifies runner
    ensures var done := CleanupOf(After(runner.git, old(runner.log)), repo, opts);
            && result == done.result
            && runner.log == old(runner.log) + done.issued
            && runner.local == if opts.dryRun then old(runner.local)
                               else old(runner.local) - (set b | b in result.localDeleted)
  {
    hide After, LocalStage, SquashStage, RemoteStage;
    ghost var past, before, git := runner.log, runner.local, After(runner.git, runner.log);
    result := Result(repo, [], [], [], opts.dryRun, None);
    ghost var p := Start(repo, opts);
    assert past + p.issued == past;
    StagesKeepMode(git, opts);
    if opts.pruneStaleTracking {
      var r := runner.Query(FetchPrune, past, before, p);
      if r.Failed? { return result.(err := Some(r.error)); }
      p := Issue(p, FetchPrune);
    }
    var r := runner.Query(ShowCurrent, past, before, p);
    p := Issue(p, ShowCurrent);
    if r.Failed? { return result.(err := Some(r.error)); }
    var current := TrimSpace(r.text);
    result := runner.DeleteLocalMerged(opts, current, result, past, before, p);
    p := LocalStage(git, opts, current, p);
    if result.err.Some? { return; }
    result := runner.DeleteSquashMerged(opts, current, result, past, before, p);
    p := SquashStage(git, opts, current, p);
    result := runner.DeleteRemoteMerged(opts, result, past, before, p);
  }

  lemma {:induction false} PassesKeepMode(git: Git, current: string, p: Progress, bs: seq<string>)
    ensures LocalPass(git, current, p, bs).result.dryRun == p.result.dryRun
    ensures SquashPass(git, current, p, bs).result.dryRun == p.result.dryRun
    ensures RemotePass(git, p, bs).result.dryRun == p.result.dryRun
    decreases bs
  {
    hide Protected, TrimSpace;
    if bs != [] {
      PassesKeepMode(git, current, LocalStep(git, current, p, bs[0]), bs[1..]);
      PassesKeepMode(git, current, SquashStep(git, current, p, bs[0]), bs[1..]);
      PassesKeepMode(git, current, RemoteStep(git, p, bs[0]), bs[1..]);
    }
  }

  lemma StagesKeepMode(git: Git, opts: Options)
    ensures forall current, p: Progress :: LocalStage(git, opts, current, p).result.dryRun == p.result.dryRun
    ensures forall current, p: Progress :: SquashStage(git, opts, current, p).result.dryRun == p.result.dryRun
    ensures forall p: Progress :: RemoteStage(git, opts, p).result.dryRun == p.result.dryRun
  {
    hide ParseBranches, ParseRemoteBranches, LocalPass, SquashPass, RemotePass;
    forall current, p: Progress, bs
      ensures LocalPass(git, current, p, bs).result.dryRun == p.result.dryRun
      ensures SquashPass(git, current, p, bs).result.dryRun == p.result.dryRun
    {
      PassesKeepMode(git, current, p, bs);
    }
    forall p: Progress, bs ensures RemotePass(git, p, bs).result.dryRun == p.result.dryRun {
      PassesKeepMode(git, "", p, bs);
    }
  }
}
