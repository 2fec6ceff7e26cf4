/** `GitClient`: a local repository, and the `git` commands run inside it to
    fetch, check remote branches and take the diff between two of them. */
module Git {
  import opened Wrappers
  import opened Errors
  import opened Host

  /** `git <command>` started with the repository as working directory. */
  function GitAt(repoPath: string, command: seq<string>): Invocation {
    Invocation(Some(repoPath), ["git"] + command)
  }

  /** `_run_git_command`'s error mapping: a missing `git` binary, or a
      checked command exiting non-zero (with its stderr), is a
      `GitCommandError`; an unchecked command never fails once started. */
  function CommandOutcome(e: Exit, argv: seq<string>, check: bool): (r: Result<Exit, Failure>)
    ensures r.Err? <==> e.NotInstalled? || (check && e.code != 0)
    ensures e.NotInstalled? ==> r == Err(GitCommandError(GitMissing))
    ensures e.Exited? && check && e.code != 0 ==> r == Err(GitCommandError(CommandFailed(argv, e.stderr)))
    ensures r.Ok? ==> r.value == e
  {
    match e
    case NotInstalled => Err(GitCommandError(GitMissing))
    case Exited(code, _, stderr) =>
      if check && code != 0 then Err(GitCommandError(CommandFailed(argv, stderr))) else Ok(e)
  }

  function RefName(remote: string, branch: string): string {
    remote + "/" + branch
  }

  function FetchArgs(remote: string): seq<string> {
    ["fetch", remote, "--prune"]
  }

  function ShowRefArgs(remote: string, branch: string): seq<string> {
    ["show-ref", "--verify", "refs/remotes/" + RefName(remote, branch)]
  }

  function DiffArgs(remote: string, base: string, feature: string): seq<string> {
    ["diff", RefName(remote, base) + "..." + RefName(remote, feature), "--unified=10"]
  }

  /** The commands `get_diff` runs when everything succeeds, in order. */
  function DiffCommands(repoPath: string, base: string, feature: string, remote: string): seq<Invocation> {
    [GitAt(repoPath, FetchArgs(remote)),
     GitAt(repoPath, ShowRefArgs(remote, base)),
     GitAt(repoPath, ShowRefArgs(remote, feature)),
     GitAt(repoPath, DiffArgs(remote, base, feature))]
  }

  /** The remote branches reported missing: base first, then feature. */
  function Missing(remote: string, base: string, feature: string, baseFound: bool, featureFound: bool): seq<string> {
    (if baseFound then [] else [RefName(remote, base)]) +
    (if featureFound then [] else [RefName(remote, feature)])
  }

  /** Commands issued, and what came of them. */
  datatype Run<T> = Run(issued: seq<Invocation>, outcome: Result<T, Failure>)

  /** `get_diff` against a `git` that answers each invocation by `git`. */
  function DiffRun(git: Invocation -> Exit, repoPath: string, base: string, feature: string, remote: string): (r: Run<string>)
    ensures 1 <= |r.issued| <= 4
    ensures r.outcome.Ok? ==> |r.issued| == 4
  {
    var cmds := DiffCommands(repoPath, base, feature, remote);
    var fetched := CommandOutcome(git(cmds[0]), cmds[0].argv, true);
    if fetched.Err? then Run(cmds[..1], Err(fetched.error))
    else
      var baseRef := CommandOutcome(git(cmds[1]), cmds[1].argv, false);
      if baseRef.Err? then Run(cmds[..2], Err(baseRef.error))
      else
        var featureRef := CommandOutcome(git(cmds[2]), cmds[2].argv, false);
        if featureRef.Err? then Run(cmds[..3], Err(featureRef.error))
        else
          var missing := Missing(remote, base, feature, baseRef.value.code == 0, featureRef.value.code == 0);
          if missing != [] then Run(cmds[..3], Err(BranchNotFoundError(missing)))
          else
            var diffed := CommandOutcome(git(cmds[3]), cmds[3].argv, true);
            Run(cmds, if diffed.Err? then Err(diffed.error) else Ok(diffed.value.stdout))
  }

  class GitClient {
    const world: World
    const repoPath: string

    constructor Make(world: World, repoPath: string)
      ensures this.world == world && this.repoPath == repoPath
    {
      this.world := world;
      this.repoPath := repoPath;
    }

    /** `GitClient(repo_path)`: refuses a path that is not a directory. */
    static method Open(world: World, repoPath: string) returns (r: Result<GitClient, Failure>)
      ensures r.Ok? <==> repoPath in world.dirs
      ensures r.Ok? ==> fresh(r.value) && r.value.world == world && r.value.repoPath == repoPath
      ensures r.Err? ==> r.error == FileNotFoundError(repoPath)
    {
      if repoPath !in world.dirs {
        return Err(FileNotFoundError(repoPath));
      }
      var c := new GitClient.Make(world, repoPath);
      return Ok(c);
    }

    /** `_run_git_command`. */
    method RunGitCommand(command: seq<string>, check: bool) returns (r: Result<Exit, Failure>)
      modifies world`commands
      ensures world.commands == old(world.commands) + [GitAt(repoPath, command)]
      ensures r == CommandOutcome(world.git(GitAt(repoPath, command)), ["git"] + command, check)
    {
      var e := world.Run(GitAt(repoPath, command));
      r := CommandOutcome(e, ["git"] + command, check);
    }

    /** `fetch_updates`: `git fetch <remote> --prune`, checked. */
    method FetchUpdates(remote: string) returns (r: Result<(), Failure>)
      modifies world`commands
      ensures world.commands == old(world.commands) + [GitAt(repoPath, FetchArgs(remote))]
      ensures var o := CommandOutcome(world.git(GitAt(repoPath, FetchArgs(remote))), ["git"] + FetchArgs(remote), true);
              r == if o.Err? then Err(o.error) else Ok(())
    {
      var o := RunGitCommand(FetchArgs(remote), true);
      r := if o.Err? then Err(o.error) else Ok(());
    }

    /** `_remote_branch_exists`: the branch exists exactly when `show-ref`
        exits 0; only a missing `git` makes it fail. */
    method RemoteBranchExists(branch: string, remote: string) returns (r: Result<bool, Failure>)
      modifies world`commands
      ensures world.commands == old(world.commands) + [GitAt(repoPath, ShowRefArgs(remote, branch))]
      ensures var e := world.git(GitAt(repoPath, ShowRefArgs(remote, branch)));
              && (e.NotInstalled? ==> r == Err(GitCommandError(GitMissing)))
              && (e.Exited? ==> r == Ok(e.code == 0))
    {
      var o := RunGitCommand(ShowRefArgs(remote, branch), false);
      r := if o.Err? then Err(o.error) else Ok(o.value.code == 0);
    }

    /** `get_diff`. */
    method GetDiff(base: string, feature: string, remote: string) returns (r: Result<string, Failure>)
      modifies world`commands
      ensures var run := DiffRun(world.git, repoPath, base, feature, remote);
              world.commands == old(world.commands) + run.issued && r == run.outcome
    {
      ghost var cmds := DiffCommands(repoPath, base, feature, remote);
      var fetched := FetchUpdates(remote);
      if fetched.Err? {
        assert cmds[..1] == [cmds[0]];
        return Err(fetched.error);
      }
      var missing: seq<string> := [];
      var baseFound := RemoteBranchExists(base, remote);
      if baseFound.Err? {
        assert cmds[..2] == [cmds[0], cmds[1]];
        return Err(baseFound.error);
      }
      if !baseFound.value {
        missing := missing + [RefName(remote, base)];
      }
      var featureFound := RemoteBranchExists(feature, remote);
      if featureFound.Err? {
        assert cmds[..3] == [cmds[0], cmds[1], cmds[2]];
        return Err(featureFound.error);
      }
      if !featureFound.value {
        missing := missing + [RefName(remote, feature)];
      }
      assert missing == Missing(remote, base, feature, baseFound.value, featureFound.value);
      if missing != [] {
        assert cmds[..3] == [cmds[0], cmds[1], cmds[2]];
        return Err(BranchNotFoundError(missing));
      }
      var diffed := RunGitCommand(DiffArgs(remote, base, feature), true);
      r := if diffed.Err? then Err(diffed.error) else Ok(diffed.value.stdout);
    }
  }

  // ---------------------------------------------------------------------
  // What `get_diff` does, whatever `git` answers

  /** The first command is always the fetch, and the commands issued are
      always a prefix of fetch, show-ref base, show-ref feature, diff. */
  lemma DiffFetchesFirst(git: Invocation -> Exit, repoPath: string, base: string, feature: string, remote: string)
    ensures var run := DiffRun(git, repoPath, base, feature, remote);
            && 1 <= |run.issued|
            && run.issued[0] == GitAt(repoPath, FetchArgs(remote))
            && run.issued <= DiffCommands(repoPath, base, feature, remote)
  {
  }

  /** The missing list names exactly the branches not found, base before
      feature. */
  lemma MissingInOrder(remote: string, base: string, feature: string, baseFound: bool, featureFound: bool)
    ensures var m := Missing(remote, base, feature, baseFound, featureFound);
            && (m == [] <==> baseFound && featureFound)
            && |m| == (if baseFound then 0 else 1) + (if featureFound then 0 else 1)
            && (!baseFound ==> m[0] == RefName(remote, base))
            && (!featureFound ==> m[|m| - 1] == RefName(remote, feature))
  {
  }

  /** A missing branch is reported exactly when the fetch succeeded, both
      checks ran and one of them exited non-zero; then the error lists the
      missing branches and no diff is taken. */
  lemma DiffReportsMissingBranches(git: Invocation -> Exit, repoPath: string, base: string, feature: string, remote: string)
    ensures var cmds := DiffCommands(repoPath, base, feature, remote);
            var run := DiffRun(git, repoPath, base, feature, remote);
            (run.outcome.Err? && run.outcome.error.BranchNotFoundError?)
            <==> (&& git(cmds[0]).Exited? && git(cmds[0]).code == 0
                  && git(cmds[1]).Exited? && git(cmds[2]).Exited?
                  && !(git(cmds[1]).code == 0 && git(cmds[2]).code == 0))
    ensures var cmds := DiffCommands(repoPath, base, feature, remote);
            var run := DiffRun(git, repoPath, base, feature, remote);
            run.outcome.Err? && run.outcome.error.BranchNotFoundError? ==>
              && run.outcome.error.missing == Missing(remote, base, feature, git(cmds[1]).code == 0, git(cmds[2]).code == 0)
              && run.issued == cmds[..3]
  {
  }

  /** `get_diff` succeeds exactly when all four commands exit 0; it then
      returns the diff's output, having issued the four commands in order. */
  lemma DiffSucceeds(git: Invocation -> Exit, repoPath: string, base: string, feature: string, remote: string)
    ensures var cmds := DiffCommands(repoPath, base, feature, remote);
            var run := DiffRun(git, repoPath, base, feature, remote);
            run.outcome.Ok? <==> forall k :: 0 <= k < 4 ==> git(cmds[k]).Exited? && git(cmds[k]).code == 0
    ensures var cmds := DiffCommands(repoPath, base, feature, remote);
            var run := DiffRun(git, repoPath, base, feature, remote);
            run.outcome.Ok? ==> run.issued == cmds && run.outcome.value == git(cmds[3]).stdout
  {
    var cmds := DiffCommands(repoPath, base, feature, remote);
    var run := DiffRun(git, repoPath, base, feature, remote);
    if forall k :: 0 <= k < 4 ==> git(cmds[k]).Exited? && git(cmds[k]).code == 0 {
      assert git(cmds[0]).code == 0 && git(cmds[1]).code == 0;
      assert git(cmds[2]).code == 0 && git(cmds[3]).code == 0;
    }
  }

  /** The diff is only taken when both branches were found. */
  lemma DiffOnlyWithBothBranches(git: Invocation -> Exit, repoPath: string, base: string, feature: string, remote: string)
    ensures var cmds := DiffCommands(repoPath, base, feature, remote);
            var run := DiffRun(git, repoPath, base, feature, remote);
            |run.issued| == 4 ==>
              && git(cmds[1]).Exited? && git(cmds[1]).code == 0
              && git(cmds[2]).Exited? && git(cmds[2]).code == 0
  {
  }

  /** When `git` cannot be started, `get_diff` reports it after the fetch
      alone. */
  lemma DiffWithoutGit(git: Invocation -> Exit, repoPath: string, base: string, feature: string, remote: string)
    requires git(GitAt(repoPath, FetchArgs(remote))) == NotInstalled
    ensures var run := DiffRun(git, repoPath, base, feature, remote);
            run == Run([GitAt(repoPath, FetchArgs(remote))], Err(GitCommandError(GitMissing)))
  {
  }
}
