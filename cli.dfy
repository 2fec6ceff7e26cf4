/** The two entry points: `backlog-reviewer` (backlog mode) and `reviewer`
    (generic mode). They choose a reviewer, run it, print the review and
    map the outcome to the process's exit status. */
module Cli {
  import opened Wrappers
  import opened Errors
  import opened Gemini
  import opened Host
  import opened Paths
  import opened StringUtils
  import opened Credentials
  import opened Generic
  import opened Backlog

  const DefaultBaseBranch: string := "main"
  const DefaultFeatureBranch: string := "develop"
  const DefaultGeminiModel: string := "gemini-2.0-flash"

  /** `os.path.join(os.getcwd(), 'var', 'tmp')`: a separator is added after
      the directory only when it does not already end in one. */
  function DefaultLocalPath(cwd: string): (r: string)
    ensures |r| >= |cwd| + 7 && r[..|cwd|] == cwd && r[|r| - 7..] == "var/tmp"
    ensures cwd == [] || cwd[|cwd| - 1] == '/' ==> |r| == |cwd| + 7
    ensures cwd != [] && cwd[|cwd| - 1] != '/' ==> |r| == |cwd| + 8 && r[|cwd|] == '/'
  {
    if cwd == [] || cwd[|cwd| - 1] == '/' then cwd + "var/tmp" else cwd + "/var/tmp"
  }

  /** The common options with their defaults filled in. */
  function CommonArgs(gitCloneUrl: string, baseBranch: Option<string>, featureBranch: Option<string>,
                      localPath: Option<string>, issueId: Option<string>, geminiModelName: Option<string>,
                      noPost: bool, cwd: string): (a: Args)
    ensures a.gitCloneUrl == gitCloneUrl && a.issueId == issueId && a.noPost == noPost
    ensures baseBranch.None? ==> a.baseBranch == DefaultBaseBranch
    ensures featureBranch.None? ==> a.featureBranch == DefaultFeatureBranch
    ensures localPath.None? ==> a.localPath == DefaultLocalPath(cwd)
    ensures geminiModelName.None? ==> a.geminiModelName == DefaultGeminiModel
    ensures baseBranch.Some? ==> a.baseBranch == baseBranch.value
    ensures featureBranch.Some? ==> a.featureBranch == featureBranch.value
    ensures localPath.Some? ==> a.localPath == localPath.value
    ensures geminiModelName.Some? ==> a.geminiModelName == geminiModelName.value
  {
    Args(gitCloneUrl,
         if baseBranch.Some? then baseBranch.value else DefaultBaseBranch,
         if featureBranch.Some? then featureBranch.value else DefaultFeatureBranch,
         if localPath.Some? then localPath.value else DefaultLocalPath(cwd),
         issueId,
         if geminiModelName.Some? then geminiModelName.value else DefaultGeminiModel,
         noPost)
  }

  /** Which reviewer `_select_reviewer` builds. */
  datatype Choice = UseBacklogReviewer | UseGitReviewer

  /** `_select_reviewer`: posting to the tracker needs an issue id. */
  function SelectReviewer(args: Args, isBacklogMode: bool): (r: Result<Choice, Failure>)
    ensures r == Err(ValueError) <==> isBacklogMode && !args.noPost && !Truthy(args.issueId)
    ensures r == Ok(UseBacklogReviewer) <==> isBacklogMode && !args.noPost && Truthy(args.issueId)
    ensures r == Ok(UseGitReviewer) <==> !isBacklogMode || args.noPost
  {
    if isBacklogMode && !args.noPost then
      if !Truthy(args.issueId) then Err(ValueError) else Ok(UseBacklogReviewer)
    else Ok(UseGitReviewer)
  }

  const ResultBanner: string := "\n--- \U{1F4DD} Gemini Code Review Result ---"
  const ResultFooter: string := "------------------------------------"
  const NothingToReview: string :=
    "レビュー対象の差分がなかったか、"
    + "結果が空のため処理を終了します。"

  /** `_print_review_result`: the lines printed. */
  function PrintReviewResult(result: Option<string>): (lines: seq<string>)
    ensures Truthy(result) ==> lines == [ResultBanner, result.value, ResultFooter]
    ensures !Truthy(result) ==> lines == [NothingToReview]
  {
    if Truthy(result) then [ResultBanner, result.value, ResultFooter] else [NothingToReview]
  }

  /** The status a failure ends the program with: `sys.exit`'s code, and
      1 for any exception `run_reviewer` catches. */
  function ExitStatus(f: Failure): (code: int)
    ensures f.SystemExit? ==> code == f.code
    ensures IsException(f) ==> code == 1
  {
    if f.SystemExit? then f.code else 1
  }

  /** What `run_reviewer` ends with: the exit status, the review lines
      printed, the value `execute_review` returned, and the run's effect. */
  datatype Finish = Finish(status: int, printed: seq<string>, review: Option<string>, effect: Effect)

  /** The Gemini reviewer `__init__` builds. */
  function ReviewerFor(args: Args, files: PromptFiles): GeminiReviewer {
    NewGeminiReviewer(args.geminiModelName, files.allowedExtensions, files.generic, files.backlog)
  }

  /** The review pass of `execute_review` once both clients exist. */
  function PassFor(world: World, args: Args, files: PromptFiles): Pass {
    ReviewPass(world.git, world.model, RepoPath(args), ReviewerFor(args, files),
               args.baseBranch, args.featureBranch, args.issueId)
  }

  /** The review pass's commands and prompts, after the setup's effect. */
  function AfterPass(s: Effect, p: Pass): Effect {
    Then(s, Effect({}, p.issued, p.sent, []))
  }

  /** `run_reviewer` with a `GitCodeReviewer`: the setup, then the review pass
      `p`, whose failure is escalated and ends the run; a review that comes
      back is printed. */
  function GenericRun(world: World, paths: set<string>, dirs: set<string>, args: Args, p: Pass): (f: Finish)
    ensures Setup(world, paths, dirs, args).result && p.result.Ok? ==>
              f.status == 0 && f.review == p.result.value && f.printed == PrintReviewResult(p.result.value)
    ensures !(Setup(world, paths, dirs, args).result && p.result.Ok?) ==> f.printed == [] && f.review == None
    ensures p.result.Err? && IsException(p.result.error) ==> f.status == 1
    ensures !Setup(world, paths, dirs, args).result ==> f.status == 1 && f.effect == Setup(world, paths, dirs, args).effect
    ensures f.effect.posted == []
  {
    var s := Setup(world, paths, dirs, args);
    if !s.result then Finish(1, [], None, s.effect)
    else if p.result.Err? then Finish(ExitStatus(Escalate(p.result.error)), [], None, AfterPass(s.effect, p))
    else Finish(0, PrintReviewResult(p.result.value), p.result.value, AfterPass(s.effect, p))
  }

  /** `run_reviewer` with a `BacklogCodeReviewer`: the setup, then
      `execute_review`, whose result is printed like any reviewer's. */
  function BacklogRun(world: World, paths: set<string>, dirs: set<string>, args: Args, p: Pass): (f: Finish)
    ensures f.status == 0 || f.status == 1
    ensures f.status == 0 <==> Setup(world, paths, dirs, args).result && BacklogReview(world, args, p).result.Ok?
    ensures f.status == 0 ==> f.review == None && f.printed == [NothingToReview]
    ensures f.status == 1 ==> f.printed == [] && f.review == None
    ensures !Setup(world, paths, dirs, args).result ==> f.effect == Setup(world, paths, dirs, args).effect
    ensures f.effect.posted != [] ==> f.status == 0
  {
    var s := Setup(world, paths, dirs, args);
    if !s.result then Finish(1, [], None, s.effect)
    else
      var d := BacklogReview(world, args, p);
      if d.result.Err? then Finish(ExitStatus(d.result.error), [], None, Then(s.effect, d.effect))
      else Finish(0, PrintReviewResult(d.result.value), d.result.value, Then(s.effect, d.effect))
  }

  /** `run_reviewer` from the world it starts in. It exits with 0 exactly
      when a reviewer was chosen, its setup opened the git client and its
      `execute_review` returned, and with 1 otherwise; only then is
      anything printed. A generic run returns the review pass's value; a
      backlog run returns nothing and is the only one that posts. */
  function Session(world: World, paths: set<string>, dirs: set<string>, args: Args, isBacklogMode: bool,
                   files: PromptFiles): (f: Finish)
    ensures f.status == 0 || f.status == 1
    ensures var choice := SelectReviewer(args, isBacklogMode);
            var p := PassFor(world, args, files);
            f.status == 0 <==>
              && choice.Ok? && Setup(world, paths, dirs, args).result
              && (choice.value == UseGitReviewer ==> p.result.Ok?)
              && (choice.value == UseBacklogReviewer ==> BacklogReview(world, args, p).result.Ok?)
    ensures f.status == 0 ==> f.printed == PrintReviewResult(f.review)
    ensures f.status != 0 ==> f.printed == [] && f.review == None
    ensures SelectReviewer(args, isBacklogMode) == Ok(UseGitReviewer) && f.status == 0 ==>
              f.review == PassFor(world, args, files).result.value
    ensures SelectReviewer(args, isBacklogMode) == Ok(UseBacklogReviewer) ==> f.review == None
    ensures f.effect.posted != [] ==> SelectReviewer(args, isBacklogMode) == Ok(UseBacklogReviewer) && f.status == 0
    ensures SelectReviewer(args, isBacklogMode).Err? || !GeminiKeyUsable(world.Setting("GEMINI_API_KEY")) ==>
              f.effect == NoEffect
    ensures f.effect.sent != [] ==> SelectReviewer(args, isBacklogMode).Ok? && Setup(world, paths, dirs, args).result
  {
    var choice := SelectReviewer(args, isBacklogMode);
    var p := PassFor(world, args, files);
    ReviewPassFailures(world.git, world.model, RepoPath(args), ReviewerFor(args, files),
                       args.baseBranch, args.featureBranch, args.issueId);
    if choice.Err? then Finish(ExitStatus(choice.error), [], None, NoEffect)
    else if choice.value == UseGitReviewer then GenericRun(world, paths, dirs, args, p)
    else BacklogRun(world, paths, dirs, args, p)
  }

  /** `GitCodeReviewer(args)`: the attribute assignments, then the setup
      of `__init__`, whose failures all end with status 1. */
  method NewGitReviewer(world: World, args: Args, files: PromptFiles)
    returns (reviewer: GitCodeReviewer, init: Result<(), Failure>)
    modifies world`paths, world`dirs, world`commands
    ensures fresh(reviewer) && reviewer.Valid() && reviewer.world == world
    ensures var s := Setup(world, old(world.paths), old(world.dirs), args);
            world.Applied(s.effect) && (init.Ok? <==> s.result)
    ensures init.Err? ==> ExitStatus(init.error) == 1
    ensures init.Ok? ==> reviewer.Planned() == PassFor(world, args, files)
  {
    reviewer := new GitCodeReviewer(world, args, files);
    init := reviewer.Initialize();
  }

  /** `BacklogCodeReviewer(args)`: the inherited `__init__`. */
  method NewBacklogReviewer(world: World, args: Args, files: PromptFiles)
    returns (reviewer: BacklogCodeReviewer, init: Result<(), Failure>)
    modifies world`paths, world`dirs, world`commands
    ensures fresh(reviewer) && reviewer.base.Valid() && reviewer.base.world == world && reviewer.base.args == args
    ensures var s := Setup(world, old(world.paths), old(world.dirs), args);
            world.Applied(s.effect) && (init.Ok? <==> s.result)
    ensures init.Err? ==> ExitStatus(init.error) == 1
    ensures init.Ok? ==> reviewer.base.Planned() == PassFor(world, args, files)
  {
    reviewer := new BacklogCodeReviewer(world, args, files);
    init := reviewer.base.Initialize();
  }

  /** The generic branch of `run_reviewer`. */
  method RunGitReviewer(world: World, args: Args, files: PromptFiles)
    returns (status: int, printed: seq<string>, review: Option<string>)
    modifies world
    ensures var f := GenericRun(world, old(world.paths), old(world.dirs), args, PassFor(world, args, files));
            status == f.status && printed == f.printed && review == f.review && world.Applied(f.effect)
  {
    ghost var p := PassFor(world, args, files);
    ghost var s := Setup(world, world.paths, world.dirs, args);
    ghost var before := (world.commands, world.prompts, world.comments);
    var reviewer, init := NewGitReviewer(world, args, files);
    if init.Err? {
      return ExitStatus(init.error), [], None;
    }
    var result := reviewer.ExecuteReview();
    ThenLogs(s.effect, Effect({}, p.issued, p.sent, []), before.0, before.1, before.2);
    if result.Err? {
      return ExitStatus(result.error), [], None;
    }
    review := result.value;
    return 0, PrintReviewResult(review), review;
  }

  /** The backlog branch of `run_reviewer`. */
  method RunBacklogReviewer(world: World, args: Args, files: PromptFiles)
    returns (status: int, printed: seq<string>, review: Option<string>)
    modifies world
    ensures var f := BacklogRun(world, old(world.paths), old(world.dirs), args, PassFor(world, args, files));
            status == f.status && printed == f.printed && review == f.review && world.Applied(f.effect)
  {
    ghost var p := PassFor(world, args, files);
    ghost var s := Setup(world, world.paths, world.dirs, args);
    ghost var before := (world.commands, world.prompts, world.comments);
    var reviewer, init := NewBacklogReviewer(world, args, files);
    if init.Err? {
      return ExitStatus(init.error), [], None;
    }
    var result := reviewer.ExecuteReview();
    ThenLogs(s.effect, BacklogReview(world, args, p).effect, before.0, before.1, before.2);
    if result.Err? {
      return ExitStatus(result.error), [], None;
    }
    review := result.value;
    return 0, PrintReviewResult(review), review;
  }

  /** `run_reviewer`: returns the exit status, the review lines printed and
      the value `execute_review` returned. Every reviewer is a
      `GitCodeReviewer`, so the result is printed in backlog mode too, where
      it is always `None`. */
  method RunReviewer(world: World, args: Args, isBacklogMode: bool, files: PromptFiles)
    returns (status: int, printed: seq<string>, review: Option<string>)
    modifies world
    ensures var f := Session(world, old(world.paths), old(world.dirs), args, isBacklogMode, files);
            status == f.status && printed == f.printed && review == f.review && world.Applied(f.effect)
  {
    var choice := SelectReviewer(args, isBacklogMode);
    if choice.Err? {
      return ExitStatus(choice.error), [], None;
    }
    if choice.value == UseBacklogReviewer {
      status, printed, review := RunBacklogReviewer(world, args, files);
    } else {
      status, printed, review := RunGitReviewer(world, args, files);
    }
  }
}
