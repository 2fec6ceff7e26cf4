/** `CodeReviewer` of the `review` command: sets up the tracker session and
    the Gemini reviewer, clones or fetches the repository, reviews the diff
    and posts the result. Every failure ends the program with status 1. */
module Command {
  import opened Wrappers
  import opened Text
  import opened Errors
  import opened Gemini
  import opened Host
  import opened Git
  import opened StringUtils
  import opened Credentials
  import opened Generic
  import opened Backlog

  /** Clone when the working copy is absent, otherwise a plain fetch. */
  function FetchOrClone(url: string, target: string, present: bool): (argv: seq<string>)
    ensures |argv| == 4 && argv[0] == "git" && target in argv
    ensures argv[1] == "clone" <==> !present
    ensures present ==> argv[3] == "fetch"
  {
    if present then ["git", "-C", target, "fetch"] else ["git", "clone", url, target]
  }

  /** `_prepare_local_repository` from the paths there are and what `git`
      answers: one clone (absent) or fetch (present); a successful clone
      leaves the working copy; any failure is an exit with status 1. */
  function Checkout(args: Args, paths: set<string>, git: Invocation -> Exit): (p: Prep)
    ensures p.result.Ok? ==> p.result.value == RepoPath(args)
    ensures p.result.Err? ==> p.result.error == SystemExit(1)
    ensures |p.issued| == 1 && p.created <= {RepoPath(args)}
    ensures RepoPath(args) in p.created ==> p.result.Ok? && RepoPath(args) !in paths
    ensures RepoPath(args) in paths ==> p.issued == [Invocation(None, ["git", "-C", RepoPath(args), "fetch"])]
    ensures RepoPath(args) !in paths ==>
              p.issued == [Invocation(None, ["git", "clone", args.gitCloneUrl, RepoPath(args)])]
    ensures var argv := FetchOrClone(args.gitCloneUrl, RepoPath(args), RepoPath(args) in paths);
            var run := CheckedRun(argv, git(Invocation(None, argv)));
            && (p.result.Ok? <==> run.Ok?)
            && (run.Ok? && RepoPath(args) !in paths ==> RepoPath(args) in p.created)
  {
    var target := RepoPath(args);
    var present := target in paths;
    var argv := FetchOrClone(args.gitCloneUrl, target, present);
    var run := CheckedRun(argv, git(Invocation(None, argv)));
    Prep(if !present && run.Ok? then {target} else {}, [Invocation(None, argv)],
         if run.Ok? then Ok(target) else Err(SystemExit(1)))
  }

  /** The issue part of the tracker path, `f"{issue_id}"`: an unset id is
      written `None`. */
  function IssueText(issueId: Option<string>): (r: string)
    ensures issueId.Some? ==> r == issueId.value
    ensures issueId.None? ==> r == "None"
  {
    if issueId.Some? then issueId.value else "None"
  }

  /** `_get_gemini_reviewer`: the reviewer, or an exit with status 1 when
      the key is missing or still the sample one. */
  function GeminiSession(world: World, modelName: string, files: PromptFiles): (r: Result<GeminiReviewer, Failure>)
    ensures r.Ok? <==> GeminiKeyUsable(world.Setting("GEMINI_API_KEY"))
    ensures r.Ok? ==> r.value == NewGeminiReviewer(modelName, files.allowedExtensions, files.generic, files.backlog)
    ensures r.Err? ==> r.error == SystemExit(1)
  {
    if GeminiKeyUsable(world.Setting("GEMINI_API_KEY"))
    then Ok(NewGeminiReviewer(modelName, files.allowedExtensions, files.generic, files.backlog))
    else Err(SystemExit(1))
  }

  /** Steps 4 and 5 of `execute_review`: a review pass `p`, then the post of
      a truthy review to the issue; a failed pass or a refused post is an
      exit with status 1. */
  function PassThenPost(args: Args, domain: string, trackerUp: bool, p: Pass): (d: Done<Result<(), Failure>>)
    ensures d.result.Err? ==> d.result.error == SystemExit(1)
    ensures d.result.Ok? <==> p.result.Ok? && (Truthy(p.result.value) ==> trackerUp)
    ensures d.effect.created == {} && d.effect.issued == p.issued && d.effect.sent == p.sent
    ensures d.effect.posted != [] <==> d.result.Ok? && Truthy(p.result.value)
    ensures d.effect.posted != [] ==>
              d.effect.posted == [Comment(domain, IssueText(args.issueId), Sanitize(Str(p.result.value.value)))]
  {
    var reviewed := Effect({}, p.issued, p.sent, []);
    if p.result.Err? then Done(reviewed, Err(SystemExit(1)))
    else if !Truthy(p.result.value) then Done(reviewed, Ok(()))
    else if !trackerUp then Done(reviewed, Err(SystemExit(1)))
    else
      var comment := Comment(domain, IssueText(args.issueId), Sanitize(Str(p.result.value.value)));
      Done(reviewed.(posted := [comment]), Ok(()))
  }

  /** Steps 2 to 5 of `execute_review` once both sessions exist: the clone
      or fetch and the opening of the working copy, then `PassThenPost` of
      the review pass `p` taken in that working copy. */
  function OpenThenReview(world: World, paths: set<string>, dirs: set<string>, args: Args,
                          domain: string, p: Pass): (d: Done<Result<(), Failure>>)
    ensures d.result.Err? ==> d.result.error == SystemExit(1)
    ensures var c := Checkout(args, paths, world.git);
            var ready := c.result.Ok? && RepoPath(args) in dirs + c.created;
            var after := PassThenPost(args, domain, world.trackerUp, p);
            && (d.result.Ok? <==> ready && after.result.Ok?)
            && d.effect.created == c.created
            && d.effect.sent == (if ready then p.sent else [])
            && d.effect.posted == (if ready then after.effect.posted else [])
  {
    var c := Checkout(args, paths, world.git);
    var checkedOut := Effect(c.created, c.issued, [], []);
    if c.result.Err? || RepoPath(args) !in dirs + c.created then Done(checkedOut, Err(SystemExit(1)))
    else
      var d := PassThenPost(args, domain, world.trackerUp, p);
      Done(Then(checkedOut, d.effect), d.result)
  }

  /** `execute_review` of the `review` command from the world it starts in,
      given the review pass `p` the reviewer takes once its clients exist:
      the tracker session and the Gemini reviewer first (a refusal does
      nothing else), then `OpenThenReview`. Every failure is an exit with
      status 1. */
  function ReviewCommand(world: World, paths: set<string>, dirs: set<string>, args: Args,
                         files: PromptFiles, p: Pass): (d: Done<Result<(), Failure>>)
    ensures d.result.Err? ==> d.result.error == SystemExit(1)
    ensures BacklogSession(world).Err? || GeminiSession(world, args.geminiModelName, files).Err? ==>
              d == Done(NoEffect, Err(SystemExit(1)))
    ensures BacklogSession(world).Ok? && GeminiSession(world, args.geminiModelName, files).Ok? ==>
              d == OpenThenReview(world, paths, dirs, args, BacklogSession(world).value.domain, p)
    ensures var c := Checkout(args, paths, world.git);
            d.result.Ok? <==>
              && BacklogSession(world).Ok? && GeminiSession(world, args.geminiModelName, files).Ok?
              && c.result.Ok? && RepoPath(args) in dirs + c.created
              && PassThenPost(args, BacklogSession(world).value.domain, world.trackerUp, p).result.Ok?
    ensures d.effect.posted != [] ==>
              && d.result.Ok? && BacklogSession(world).Ok? && p.result.Ok? && Truthy(p.result.value)
              && d.effect.posted == [Comment(BacklogSession(world).value.domain, IssueText(args.issueId),
                                             Sanitize(Str(p.result.value.value)))]
  {
    var session := BacklogSession(world);
    var gemini := GeminiSession(world, args.geminiModelName, files);
    if session.Err? || gemini.Err? then Done(NoEffect, Err(SystemExit(1)))
    else OpenThenReview(world, paths, dirs, args, session.value.domain, p)
  }

  class CodeReviewer {
    const world: World
    const args: Args
    const files: PromptFiles
    var backlogClient: Option<BacklogClient>
    var geminiReviewer: Option<GeminiReviewer>
    var gitClient: GitClient?

    ghost predicate Valid()
      reads this
    {
      gitClient != null ==> gitClient.world == world
    }

    constructor(world: World, args: Args, files: PromptFiles)
      ensures this.world == world && this.args == args && this.files == files
      ensures backlogClient == None && geminiReviewer == None && gitClient == null
      ensures Valid()
    {
      this.world := world;
      this.args := args;
      this.files := files;
      backlogClient := None;
      geminiReviewer := None;
      gitClient := null;
    }

    /** What `_prepare_local_repository` leaves behind, given its result. */
    twostate predicate Prepared(new r: Result<string, Failure>)
      reads world
    {
      var p := Checkout(args, old(world.paths), world.git);
      && r == p.result
      && world.commands == old(world.commands) + p.issued
      && world.paths == old(world.paths) + p.created
      && world.dirs == old(world.dirs) + p.created
    }

    /** `_prepare_local_repository(args.git_clone_url, Path(args.local_path))`. */
    method PrepareLocalRepository() returns (r: Result<string, Failure>)
      modifies world`paths, world`dirs, world`commands
      ensures Prepared(r)
    {
      var target := RepoPath(args);
      var present := target in world.paths;
      var argv := FetchOrClone(args.gitCloneUrl, target, present);
      var e := world.Run(Invocation(None, argv));
      if CheckedRun(argv, e).Err? {
        return Err(SystemExit(1));
      }
      if !present {
        world.AddDirectory(target);
      }
      return Ok(target);
    }

    /** What `_process_diff_and_review` does in the current state. */
    function Planned(): Pass
      reads this
    {
      if gitClient == null || geminiReviewer.None? then Pass([], [], Err(RuntimeError))
      else ReviewPass(world.git, world.model, gitClient.repoPath, geminiReviewer.value,
                      args.baseBranch, args.featureBranch, args.issueId)
    }

    /** `_process_diff_and_review(args.issue_id, args.base_branch, args.feature_branch)`. */
    method ProcessDiffAndReview() returns (r: Result<Option<string>, Failure>)
      requires Valid()
      modifies world`commands, world`prompts
      ensures world.commands == old(world.commands) + Planned().issued
      ensures world.prompts == old(world.prompts) + Planned().sent
      ensures r == Planned().result
    {
      if gitClient == null || geminiReviewer.None? {
        return Err(RuntimeError);
      }
      var diff := gitClient.GetDiff(args.baseBranch, args.featureBranch, Remote);
      if diff.Err? {
        return Err(diff.error);
      }
      if IsBlank(diff.value) {
        return Ok(None);
      }
      var result, sent := ReviewCode(geminiReviewer.value, diff.value, args.issueId, world.model);
      world.SendPrompts(sent);
      r := if result.Ok? then Ok(Some(result.value)) else Err(result.error);
    }

    /** Posts a truthy review, sanitised, to the issue; a refused post ends
        with status 1. */
    method PostReview(client: BacklogClient, review: Option<string>) returns (r: Result<(), Failure>)
      modifies world`comments
      ensures !Truthy(review) ==> r == Ok(()) && world.comments == old(world.comments)
      ensures Truthy(review) && world.trackerUp ==>
                && r == Ok(())
                && world.comments == old(world.comments) +
                     [Comment(client.domain, IssueText(args.issueId), Sanitize(Str(review.value)))]
      ensures Truthy(review) && !world.trackerUp ==>
                r == Err(SystemExit(1)) && world.comments == old(world.comments)
    {
      if Truthy(review) {
        var posted := world.PostComment(client, IssueText(args.issueId), Sanitize(Str(review.value)));
        if posted.Err? {
          return Err(SystemExit(1));
        }
      }
      return Ok(());
    }

    /** The repository half of `execute_review`: clone or fetch, then open
        the working copy; the client is kept only when both succeed. */
    method OpenRepository() returns (r: Result<(), Failure>)
      requires Valid()
      modifies this`gitClient, world`paths, world`dirs, world`commands
      ensures Valid()
      ensures var c := Checkout(args, old(world.paths), world.git);
              && world.Applied(Effect(c.created, c.issued, [], []))
              && (r.Ok? <==> c.result.Ok? && RepoPath(args) in old(world.dirs) + c.created)
      ensures r.Err? ==> r.error == SystemExit(1) && gitClient == old(gitClient)
      ensures r.Ok? ==> gitClient != null && fresh(gitClient) && gitClient.repoPath == RepoPath(args)
    {
      var prepared := PrepareLocalRepository();
      if prepared.Err? {
        return Err(prepared.error);
      }
      var client := GitClient.Open(world, prepared.value);
      if client.Err? {
        return Err(SystemExit(1));
      }
      gitClient := client.value;
      return Ok(());
    }

    /** The review half of `execute_review`: the diff review of `Planned`,
        then the post of a truthy result. */
    method ReviewAndPost(client: BacklogClient) returns (r: Result<(), Failure>)
      requires Valid()
      modifies world`commands, world`prompts, world`comments
      ensures var d := PassThenPost(args, client.domain, world.trackerUp, Planned());
              r == d.result && world.Applied(d.effect)
    {
      var review := ProcessDiffAndReview();
      if review.Err? {
        return Err(SystemExit(1));
      }
      r := PostReview(client, review.value);
    }

    /** Steps 2 to 5 of `execute_review`, with the Gemini reviewer set up. */
    method OpenAndReview(client: BacklogClient) returns (r: Result<(), Failure>)
      requires Valid() && geminiReviewer.Some?
      modifies this`gitClient, world`paths, world`dirs, world`commands, world`prompts, world`comments
      ensures Valid()
      ensures var d := OpenThenReview(world, old(world.paths), old(world.dirs), args, client.domain, Planned());
              r == d.result && world.Applied(d.effect)
      ensures var c := Checkout(args, old(world.paths), world.git);
              c.result.Ok? && RepoPath(args) in old(world.dirs) + c.created ==>
                gitClient != null && fresh(gitClient) && gitClient.repoPath == RepoPath(args)
      ensures var c := Checkout(args, old(world.paths), world.git);
              !(c.result.Ok? && RepoPath(args) in old(world.dirs) + c.created) ==> gitClient == old(gitClient)
    {
      ghost var c := Checkout(args, world.paths, world.git);
      ghost var before := (world.paths, world.dirs, world.commands, world.prompts, world.comments);
      r := OpenRepository();
      if r.Ok? {
        ghost var d := PassThenPost(args, client.domain, world.trackerUp, Planned());
        r := ReviewAndPost(client);
        ThenLogs(Effect(c.created, c.issued, [], []), d.effect, before.2, before.3, before.4);
      }
    }

    /** `execute_review`. */
    method ExecuteReview() returns (r: Result<(), Failure>)
      requires Valid()
      modifies this`backlogClient, this`geminiReviewer, this`gitClient,
               world`paths, world`dirs, world`commands, world`prompts, world`comments
      ensures Valid()
      ensures var d := ReviewCommand(world, old(world.paths), old(world.dirs), args, files, Planned());
              r == d.result && world.Applied(d.effect)
      ensures BacklogSession(world).Ok? ==> backlogClient == Some(BacklogSession(world).value)
      ensures BacklogSession(world).Ok? && GeminiSession(world, args.geminiModelName, files).Ok? ==>
                && geminiReviewer == Some(GeminiSession(world, args.geminiModelName, files).value)
                && var c := Checkout(args, old(world.paths), world.git);
                   c.result.Ok? && RepoPath(args) in old(world.dirs) + c.created ==>
                     gitClient != null && fresh(gitClient) && gitClient.repoPath == RepoPath(args)
      ensures BacklogSession(world).Err? ==> backlogClient == old(backlogClient)
      ensures !(BacklogSession(world).Ok? && GeminiSession(world, args.geminiModelName, files).Ok?) ==>
                geminiReviewer == old(geminiReviewer)
      ensures var c := Checkout(args, old(world.paths), world.git);
              !(&& BacklogSession(world).Ok? && GeminiSession(world, args.geminiModelName, files).Ok?
                && c.result.Ok? && RepoPath(args) in old(world.dirs) + c.created) ==>
                gitClient == old(gitClient)
    {
      var session := BacklogSession(world);
      if session.Err? {
        return Err(session.error);
      }
      backlogClient := Some(session.value);
      var gemini := GeminiSession(world, args.geminiModelName, files);
      if gemini.Err? {
        return Err(gemini.error);
      }
      geminiReviewer := Some(gemini.value);
      r := OpenAndReview(session.value);
    }
  }
}
