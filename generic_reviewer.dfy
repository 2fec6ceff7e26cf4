/** `GitCodeReviewer`: prepares a working copy of the repository, takes the
    diff between the two branches and has Gemini review it. */
module Generic {
  import opened Wrappers
  import opened Text
  import opened Errors
  import opened Gemini
  import opened Host
  import opened Paths
  import opened Git
  import opened Credentials

  /** The remote every diff is taken against. */
  const Remote: string := "origin"

  /** `local_path / Path(git_clone_url).stem`: the working copy is a direct
      child of the local directory. */
  function RepoPath(args: Args): (r: string)
    ensures |args.localPath| <= |r| && r[..|args.localPath|] == args.localPath
    ensures |r| > |args.localPath| ==> r[|args.localPath|] == '/' && '/' !in r[|args.localPath| + 1..]
  {
    JoinPath(args.localPath, RepoName(args.gitCloneUrl))
  }

  /** A clone URL `…/<name>.git` puts the working copy at `<local_path>/<name>`. */
  lemma RepoPathOfGitUrl(args: Args, prefix: string, name: string)
    requires name != [] && '/' !in name
    requires args.gitCloneUrl == prefix + "/" + name + ".git"
    ensures RepoPath(args) == args.localPath + "/" + name
  {
    RepoNameOfGitUrl(prefix, name);
  }

  /** Clone when the working copy is absent, otherwise fetch every remote. */
  function PrepareCommand(url: string, target: string, present: bool): (argv: seq<string>)
    ensures |argv| >= 4 && argv[0] == "git" && target in argv
    ensures argv[1] == "clone" <==> !present
    ensures present ==> argv[3..] == ["fetch", "--all"]
  {
    if present then ["git", "-C", target, "fetch", "--all"] else ["git", "clone", url, target]
  }

  /** Paths created, commands issued and result of `_prepare_local_repository`. */
  datatype Prep = Prep(created: set<string>, issued: seq<Invocation>, result: Result<string, Failure>)

  /** `_prepare_local_repository` from the paths there are, the paths
      `mkdir` cannot create and what `git` answers: the local directory is
      created when absent (a failure ends everything there), then exactly
      one clone or fetch runs, and a successful clone leaves the working
      copy. */
  function Preparation(args: Args, paths: set<string>, mkdirFails: set<string>,
                       git: Invocation -> Exit): (p: Prep)
    ensures p.result.Ok? ==> p.result.value == RepoPath(args)
    ensures p.result.Err? ==> IsGitReviewerError(p.result.error)
    ensures p.created <= {args.localPath, RepoPath(args)}
    ensures |p.issued| <= 1 && (p.result.Ok? ==> |p.issued| == 1)
    ensures args.localPath in paths ==> |p.issued| == 1
    ensures RepoPath(args) in p.created && RepoPath(args) != args.localPath ==>
              p.result.Ok? && RepoPath(args) !in paths
    ensures args.localPath !in paths && args.localPath in mkdirFails ==>
              p == Prep({}, [], Err(GitReviewerError(OSError(args.localPath))))
    ensures args.localPath !in paths && args.localPath !in mkdirFails ==> args.localPath in p.created
    ensures p.issued != [] ==>
              p.issued == [Invocation(None, PrepareCommand(args.gitCloneUrl, RepoPath(args),
                                                          RepoPath(args) in paths + {args.localPath}))]
    ensures !(args.localPath !in paths && args.localPath in mkdirFails) ==>
              var present := RepoPath(args) in paths + {args.localPath};
              var argv := PrepareCommand(args.gitCloneUrl, RepoPath(args), present);
              var run := CheckedRun(argv, git(Invocation(None, argv)));
              && (p.result.Ok? <==> run.Ok?)
              && (run.Err? ==> p.result == Err(GitReviewerError(run.error)))
              && (run.Ok? && !present ==> RepoPath(args) in p.created)
  {
    var local := args.localPath;
    var target := RepoPath(args);
    if local !in paths && local in mkdirFails then Prep({}, [], Err(GitReviewerError(OSError(local))))
    else
      var made: set<string> := if local in paths then {} else {local};
      var present := target in paths + made;
      var argv := PrepareCommand(args.gitCloneUrl, target, present);
      var run := CheckedRun(argv, git(Invocation(None, argv)));
      var cloned: set<string> := if !present && run.Ok? then {target} else {};
      Prep(made + cloned, [Invocation(None, argv)],
           if run.Ok? then Ok(target) else Err(GitReviewerError(run.error)))
  }

  /** Commands issued, prompts sent and result of `_process_diff_and_review`. */
  datatype Pass = Pass(issued: seq<Invocation>, sent: seq<string>, result: Result<Option<string>, Failure>)

  /** The setup `__init__` runs, from the world it starts in: the Gemini
      key check, then the preparation of the working copy. The result says
      whether the git client could be opened. */
  function Setup(world: World, paths: set<string>, dirs: set<string>, args: Args): (s: Done<bool>)
    ensures !GeminiKeyUsable(world.Setting("GEMINI_API_KEY")) ==> s == Done(NoEffect, false)
    ensures s.result ==> RepoPath(args) in dirs + s.effect.created
    ensures s.effect.sent == [] && s.effect.posted == [] && |s.effect.issued| <= 1
  {
    if !GeminiKeyUsable(world.Setting("GEMINI_API_KEY")) then Done(NoEffect, false)
    else
      var prep := Preparation(args, paths, world.mkdirFails, world.git);
      Done(Effect(prep.created, prep.issued, [], []), prep.result.Ok? && RepoPath(args) in dirs + prep.created)
  }

  /** `_process_diff_and_review` once both clients exist: take the diff; a
      blank diff is not reviewed; otherwise the review is returned unchanged. */
  function ReviewPass(git: Invocation -> Exit, model: (string, string) -> ModelReply, repoPath: string,
                      g: GeminiReviewer, base: string, feature: string, issueId: Option<string>): (p: Pass)
    ensures 1 <= |p.issued| <= 4 && |p.sent| <= 1
    ensures var run := DiffRun(git, repoPath, base, feature, Remote);
            p.issued == run.issued
    ensures var run := DiffRun(git, repoPath, base, feature, Remote);
            run.outcome.Err? ==> p.sent == [] && p.result == Err(run.outcome.error)
    ensures var run := DiffRun(git, repoPath, base, feature, Remote);
            run.outcome.Ok? && IsBlank(run.outcome.value) ==> p.sent == [] && p.result == Ok(None)
    ensures var run := DiffRun(git, repoPath, base, feature, Remote);
            run.outcome.Ok? && !IsBlank(run.outcome.value) ==>
              var rev := Review(g, run.outcome.value, issueId, model);
              && p.sent == rev.sent
              && p.result == (if rev.result.Ok? then Ok(Some(rev.result.value)) else Err(rev.result.error))
  {
    var run := DiffRun(git, repoPath, base, feature, Remote);
    if run.outcome.Err? then Pass(run.issued, [], Err(run.outcome.error))
    else if IsBlank(run.outcome.value) then Pass(run.issued, [], Ok(None))
    else
      var rev := Review(g, run.outcome.value, issueId, model);
      Pass(run.issued, rev.sent, if rev.result.Ok? then Ok(Some(rev.result.value)) else Err(rev.result.error))
  }

  /** `execute_review`'s handler: reviewer errors pass unchanged, any other
      exception is wrapped in a `GitReviewerError`. */
  function Escalate(f: Failure): (r: Failure)
    ensures IsException(f) ==> IsGitReviewerError(r)
    ensures IsGitReviewerError(f) || !IsException(f) ==> r == f
    ensures IsException(f) && !IsGitReviewerError(f) ==> r == GitReviewerError(f)
  {
    if IsGitReviewerError(f) || !IsException(f) then f else GitReviewerError(f)
  }

  class GitCodeReviewer {
    const world: World
    const args: Args
    const files: PromptFiles
    const issueId: Option<string>
    var geminiReviewer: Option<GeminiReviewer>
    var gitClient: GitClient?

    /** The git client works on the same world as the reviewer. */
    ghost predicate Valid()
      reads this
    {
      gitClient != null ==> gitClient.world == world
    }

    /** The attribute assignments of `__init__`; the setup it goes on to
        run is `Initialize`. */
    constructor(world: World, args: Args, files: PromptFiles)
      ensures this.world == world && this.args == args && this.files == files
      ensures issueId == args.issueId
      ensures geminiReviewer == None && gitClient == null
      ensures Valid()
    {
      this.world := world;
      this.args := args;
      this.files := files;
      issueId := args.issueId;
      geminiReviewer := None;
      gitClient := null;
    }

    /** `_setup_gemini_reviewer`. */
    method SetupGeminiReviewer() returns (r: Result<(), Failure>)
      modifies this`geminiReviewer
      ensures r.Ok? <==> GeminiKeyUsable(world.Setting("GEMINI_API_KEY"))
      ensures r.Ok? ==> geminiReviewer == Some(NewGeminiReviewer(args.geminiModelName,
                          files.allowedExtensions, files.generic, files.backlog))
      ensures r.Err? ==> r == Err(ConfigurationError) && geminiReviewer == old(geminiReviewer)
    {
      var key := world.Setting("GEMINI_API_KEY");
      if !GeminiKeyUsable(key) {
        return Err(ConfigurationError);
      }
      geminiReviewer := Some(NewGeminiReviewer(args.geminiModelName,
                               files.allowedExtensions, files.generic, files.backlog));
      return Ok(());
    }

    /** What `_prepare_local_repository` leaves behind, given its result. */
    twostate predicate Prepared(new r: Result<string, Failure>)
      reads world
    {
      var p := Preparation(args, old(world.paths), world.mkdirFails, world.git);
      && r == p.result
      && world.commands == old(world.commands) + p.issued
      && world.paths == old(world.paths) + p.created
      && world.dirs == old(world.dirs) + p.created
    }

    /** `_prepare_local_repository`. */
    method PrepareLocalRepository() returns (r: Result<string, Failure>)
      modifies world`paths, world`dirs, world`commands
      ensures Prepared(r)
    {
      var local := args.localPath;
      var repoName := RepoName(args.gitCloneUrl);
      if local !in world.paths {
        var made := world.MakeDirs(local);
        if made.Err? {
          return Err(GitReviewerError(made.error));
        }
      }
      var target := JoinPath(local, repoName);
      var present := target in world.paths;
      var argv := PrepareCommand(args.gitCloneUrl, target, present);
      var e := world.Run(Invocation(None, argv));
      var run := CheckedRun(argv, e);
      if run.Err? {
        return Err(GitReviewerError(run.error));
      }
      if !present {
        world.AddDirectory(target);
      }
      return Ok(target);
    }

    /** `_setup_git_client`: a working copy that is not a directory makes
        `GitClient` raise `FileNotFoundError`. */
    method SetupGitClient() returns (r: Result<(), Failure>)
      requires Valid()
      modifies this`gitClient, world`paths, world`dirs, world`commands
      ensures Valid()
      ensures r.Ok? ==> && Prepared(Ok(RepoPath(args))) && RepoPath(args) in world.dirs
                        && gitClient != null && fresh(gitClient) && gitClient.repoPath == RepoPath(args)
      ensures r.Err? ==> gitClient == old(gitClient)
      ensures r.Err? ==> || (Prepared(Err(r.error)) && IsGitReviewerError(r.error))
                         || (&& Prepared(Ok(RepoPath(args))) && RepoPath(args) !in world.dirs
                             && r == Err(FileNotFoundError(RepoPath(args))))
    {
      var prepared := PrepareLocalRepository();
      if prepared.Err? {
        return Err(prepared.error);
      }
      var client := GitClient.Open(world, prepared.value);
      if client.Err? {
        return Err(client.error);
      }
      gitClient := client.value;
      return Ok(());
    }

    /** The setup `__init__` runs: configuration and reviewer errors end
        the program with status 1; anything else propagates. With an
        accepted key the repository is prepared, and the client is opened
        exactly when the preparation succeeded and left a directory. */
    method Initialize() returns (r: Result<(), Failure>)
      requires Valid()
      modifies this`geminiReviewer, this`gitClient, world`paths, world`dirs, world`commands
      ensures Valid()
      ensures !GeminiKeyUsable(world.Setting("GEMINI_API_KEY")) ==>
                && r == Err(SystemExit(1)) && geminiReviewer == old(geminiReviewer)
                && unchanged(world)
      ensures GeminiKeyUsable(world.Setting("GEMINI_API_KEY")) ==>
                var p := Preparation(args, old(world.paths), world.mkdirFails, world.git);
                && geminiReviewer == Some(NewGeminiReviewer(args.geminiModelName,
                                            files.allowedExtensions, files.generic, files.backlog))
                && Prepared(p.result)
                && (r == Err(SystemExit(1)) <==> p.result.Err?)
                && (r == Err(FileNotFoundError(RepoPath(args))) <==>
                      p.result.Ok? && RepoPath(args) !in world.dirs)
                && (r.Ok? <==> p.result.Ok? && RepoPath(args) in world.dirs)
      ensures r.Ok? ==> gitClient != null && fresh(gitClient) && gitClient.repoPath == RepoPath(args)
      ensures r.Err? ==> gitClient == old(gitClient)
      ensures r.Err? ==> r == Err(SystemExit(1)) || r == Err(FileNotFoundError(RepoPath(args)))
      ensures var s := Setup(world, old(world.paths), old(world.dirs), args);
              world.Applied(s.effect) && (r.Ok? <==> s.result)
    {
      var gemini := SetupGeminiReviewer();
      if gemini.Err? {
        return Err(SystemExit(1));
      }
      var git := SetupGitClient();
      if git.Err? {
        if IsGitReviewerError(git.error) {
          return Err(SystemExit(1));
        }
        return Err(git.error);
      }
      return Ok(());
    }

    /** What `_process_diff_and_review` does in the current state. */
    function Planned(): Pass
      reads this
    {
      if gitClient == null || geminiReviewer.None? then Pass([], [], Err(RuntimeError))
      else ReviewPass(world.git, world.model, gitClient.repoPath, geminiReviewer.value,
                      args.baseBranch, args.featureBranch, issueId)
    }

    /** `_process_diff_and_review`. */
    method ProcessDiffAndReview() returns (r: Result<Option<string>, Failure>)
      requires Valid()
      modifies world`commands, world`prompts
      ensures world.commands == old(world.commands) + Planned().issued
      ensures world.prompts == old(world.prompts) + Planned().sent
      ensures r == Planned().result
    {
      if gitClient == null || geminiReviewer.None? {
        return Err(RuntimeError);
      }
      var diff := gitClient.GetDiff(args.baseBranch, args.featureBranch, Remote);
      if diff.Err? {
        return Err(diff.error);
      }
      if IsBlank(diff.value) {
        return Ok(None);
      }
      var result, sent := ReviewCode(geminiReviewer.value, diff.value, issueId, world.model);
      world.SendPrompts(sent);
      r := if result.Ok? then Ok(Some(result.value)) else Err(result.error);
    }

    /** `execute_review`. */
    method ExecuteReview() returns (r: Result<Option<string>, Failure>)
      requires Valid()
      modifies world`commands, world`prompts
      ensures world.commands == old(world.commands) + Planned().issued
      ensures world.prompts == old(world.prompts) + Planned().sent
      ensures r == if Planned().result.Ok? then Planned().result else Err(Escalate(Planned().result.error))
      ensures r.Err? ==> IsGitReviewerError(r.error)
    {
      r := ProcessDiffAndReview();
      if r.Err? {
        if gitClient != null && geminiReviewer.Some? {
          ReviewPassFailures(world.git, world.model, gitClient.repoPath, geminiReviewer.value,
                             args.baseBranch, args.featureBranch, issueId);
        }
        r := Err(Escalate(r.error));
      }
    }
  }

  // ---------------------------------------------------------------------
  // What a review pass does, whatever git and the model answer

  /** Nothing is sent to the model unless the diff was taken and is not
      blank; a blank diff yields no review. */
  lemma BlankDiffIsNotReviewed(git: Invocation -> Exit, model: (string, string) -> ModelReply, repoPath: string,
                               g: GeminiReviewer, base: string, feature: string, issueId: Option<string>)
    ensures var run := DiffRun(git, repoPath, base, feature, Remote);
            var p := ReviewPass(git, model, repoPath, g, base, feature, issueId);
            && p.issued == run.issued
            && (p.sent != [] ==> run.outcome.Ok? && !IsBlank(run.outcome.value))
            && (run.outcome.Ok? && IsBlank(run.outcome.value) ==> p.result == Ok(None) && p.sent == [])
  {
  }

  /** A review that comes back has no surrounding whitespace, and exactly
      one prompt was sent for it, unless filtering left nothing. */
  lemma ReviewPassResult(git: Invocation -> Exit, model: (string, string) -> ModelReply, repoPath: string,
                         g: GeminiReviewer, base: string, feature: string, issueId: Option<string>)
    ensures var p := ReviewPass(git, model, repoPath, g, base, feature, issueId);
            p.result.Ok? && p.result.value.Some? ==>
              var review := p.result.value.value;
              && (review == [] || (!IsSpace(review[0]) && !IsSpace(review[|review| - 1])))
              && (|p.sent| == 1 || (p.sent == [] && review == []))
  {
    var run := DiffRun(git, repoPath, base, feature, Remote);
    if run.outcome.Ok? && !IsBlank(run.outcome.value) {
      var filtered := FilterText(g.allowedExtensions, run.outcome.value);
      var prompt := BuildReviewPrompt(g, filtered, issueId);
      if !IsBlank(filtered) && prompt.Ok? {
        var reply := model(g.modelName, prompt.value);
        if reply.Reply? {
          StripCuts(reply.text);
        }
      }
    }
  }

  /** A review pass fails only with an exception, never with an exit. */
  lemma ReviewPassFailures(git: Invocation -> Exit, model: (string, string) -> ModelReply, repoPath: string,
                           g: GeminiReviewer, base: string, feature: string, issueId: Option<string>)
    ensures var p := ReviewPass(git, model, repoPath, g, base, feature, issueId);
            p.result.Err? ==> IsException(p.result.error)
  {
  }

  /** Every failure surfacing from `execute_review` is a reviewer error or
      an exit. */
  lemma ExecuteReviewFailures(f: Failure)
    ensures IsGitReviewerError(Escalate(f)) || Escalate(f).SystemExit?
    ensures Escalate(Escalate(f)) == Escalate(f)
  {
  }
}
