/** `BacklogCodeReviewer`: the generic review, whose result is then posted
    as a comment on the issue tracker's issue. Python's subclassing is
    modelled by composition: `base` is the inherited `GitCodeReviewer`
    part, whose setup it shares. */
module Backlog {
  import opened Wrappers
  import opened Errors
  import opened Gemini
  import opened Host
  import opened StringUtils
  import opened Credentials
  import opened Generic

  /** `_setup_backlog_client`: the tracker session, or an exit with status 1
      when the credentials are missing or still the sample ones. */
  function BacklogSession(world: World): (r: Result<BacklogClient, Failure>)
    ensures var key := world.Setting("BACKLOG_API_KEY");
            var domain := world.Setting("BACKLOG_DOMAIN");
            && (r.Ok? <==> BacklogCredentialsUsable(key, domain))
            && (r.Ok? ==> r.value == BacklogClient(key.value, domain.value))
            && (r.Err? ==> r.error == SystemExit(1))
  {
    var key := world.Setting("BACKLOG_API_KEY");
    var domain := world.Setting("BACKLOG_DOMAIN");
    if BacklogCredentialsUsable(key, domain) then Ok(BacklogClient(key.value, domain.value))
    else Err(SystemExit(1))
  }

  /** What `execute_review` does once the inherited setup ran, given the
      review pass `p` it takes. */
  function BacklogReview(world: World, args: Args, p: Pass): (d: Done<Result<Option<string>, Failure>>)
    ensures d.result.Ok? ==> d.result.value == None
    ensures d.result.Err? ==> d.result.error == SystemExit(1)
    ensures d.result.Ok? <==>
              && Truthy(args.issueId) && BacklogSession(world).Ok? && p.result.Ok?
              && (Truthy(p.result.value) ==> world.trackerUp)
    ensures !Truthy(args.issueId) || BacklogSession(world).Err? ==> d.effect == NoEffect
    ensures Truthy(args.issueId) && BacklogSession(world).Ok? ==>
              d.effect.created == {} && d.effect.issued == p.issued && d.effect.sent == p.sent
    ensures d.effect.posted != [] <==> d.result.Ok? && Truthy(p.result.value)
    ensures d.effect.posted != [] ==>
              d.effect.posted == [Comment(BacklogSession(world).value.domain, args.issueId.value,
                                          Sanitize(Str(p.result.value.value)))]
  {
    var session := BacklogSession(world);
    if !Truthy(args.issueId) || session.Err? then Done(NoEffect, Err(SystemExit(1)))
    else
      var reviewed := Effect({}, p.issued, p.sent, []);
      if p.result.Err? || (Truthy(p.result.value) && !world.trackerUp) then Done(reviewed, Err(SystemExit(1)))
      else if Truthy(p.result.value) then
        Done(reviewed.(posted := [Comment(session.value.domain, args.issueId.value,
                                          Sanitize(Str(p.result.value.value)))]), Ok(None))
      else Done(reviewed, Ok(None))
  }

  class BacklogCodeReviewer {
    const base: GitCodeReviewer
    var backlogClient: Option<BacklogClient>

    /** The attribute assignments of `__init__`; the inherited setup is
        `base.Initialize`. */
    constructor(world: World, args: Args, files: PromptFiles)
      ensures fresh(base) && base.world == world && base.args == args && base.files == files
      ensures base.issueId == args.issueId && base.geminiReviewer == None && base.gitClient == null
      ensures base.Valid()
      ensures backlogClient == None
    {
      base := new GitCodeReviewer(world, args, files);
      backlogClient := None;
    }

    /** `execute_review`: an issue id is required; the tracker session is
        set up before the review runs; a truthy review is posted once,
        sanitised, to that issue; any exception ends with status 1. */
    method ExecuteReview() returns (r: Result<Option<string>, Failure>)
      requires base.Valid()
      modifies this`backlogClient, base.world`commands, base.world`prompts, base.world`comments
      ensures var d := BacklogReview(base.world, base.args, base.Planned());
              r == d.result && base.world.Applied(d.effect)
      ensures backlogClient == if Truthy(base.args.issueId) && BacklogSession(base.world).Ok?
                               then Some(BacklogSession(base.world).value) else old(backlogClient)
    {
      var issueId := base.args.issueId;
      if !Truthy(issueId) {
        return Err(SystemExit(1));
      }
      var session := BacklogSession(base.world);
      if session.Err? {
        return Err(session.error);
      }
      backlogClient := Some(session.value);
      var review := base.ExecuteReview();
      if review.Err? {
        return Err(SystemExit(1));
      }
      if Truthy(review.value) {
        var posted := base.world.PostComment(session.value, issueId.value, Sanitize(Str(review.value.value)));
        if posted.Err? {
          return Err(SystemExit(1));
        }
      }
      return Ok(None);
    }

    /** The inherited review fails only with an exception. */
    lemma PlannedFailures()
      ensures base.Planned().result.Err? ==> IsException(base.Planned().result.error)
    {
      if base.gitClient != null && base.geminiReviewer.Some? {
        ReviewPassFailures(base.world.git, base.world.model, base.gitClient.repoPath,
                           base.geminiReviewer.value, base.args.baseBranch, base.args.featureBranch, base.issueId);
      }
    }
  }
}
