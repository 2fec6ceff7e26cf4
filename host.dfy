/** The process's surroundings, as the reviewers see them: the parsed
    command line, the settings, the filesystem (which paths exist and which
    of them are directories), the `git` executable, the generative model and
    the issue tracker. External programs and services answer through fixed
    functions; what was asked of them is logged. */
module Host {
  import opened Wrappers
  import opened Errors
  import opened Gemini

  /** The namespace `argparse` builds (`no_post` is false for the generic
      entry point, which has no such option). */
  datatype Args = Args(
    gitCloneUrl: string,
    baseBranch: string,
    featureBranch: string,
    localPath: string,
    issueId: Option<string>,
    geminiModelName: string,
    noPost: bool)

  /** A process start: working directory (None: the current one) and argv. */
  datatype Invocation = Invocation(cwd: Option<string>, argv: seq<string>)

  /** How a process ended, or that its program could not be found. */
  datatype Exit = Exited(code: int, stdout: string, stderr: string) | NotInstalled

  /** `subprocess.run(argv, check=True)`: a missing program raises
      `FileNotFoundError`, a non-zero exit `CalledProcessError`. */
  function CheckedRun(argv: seq<string>, e: Exit): (r: Result<(), Failure>)
    ensures r.Ok? <==> e.Exited? && e.code == 0
    ensures e.NotInstalled? ==> r == Err(ProcessNotStarted(argv))
    ensures e.Exited? && e.code != 0 ==> r == Err(CalledProcessError(argv))
  {
    match e
    case NotInstalled => Err(ProcessNotStarted(argv))
    case Exited(code, _, _) => if code == 0 then Ok(()) else Err(CalledProcessError(argv))
  }

  /** An issue tracker session: the API key and the space's domain. */
  datatype BacklogClient = BacklogClient(apiKey: string, domain: string)

  /** A comment the tracker accepted. */
  datatype Comment = Comment(domain: string, issue: string, content: string)

  /** What a run does to the world: paths created (all of them
      directories), processes started, prompts sent and comments posted. */
  datatype Effect = Effect(created: set<string>, issued: seq<Invocation>, sent: seq<string>, posted: seq<Comment>)

  const NoEffect: Effect := Effect({}, [], [], [])

  /** `a`, then `b`. */
  function Then(a: Effect, b: Effect): Effect {
    Effect(a.created + b.created, a.issued + b.issued, a.sent + b.sent, a.posted + b.posted)
  }

  /** Running `a` and then `b` applies `Then(a, b)`: the logs of the two
      runs are concatenated in order. */
  lemma ThenLogs(a: Effect, b: Effect, commands: seq<Invocation>, prompts: seq<string>, comments: seq<Comment>)
    ensures commands + a.issued + b.issued == commands + Then(a, b).issued
    ensures prompts + a.sent + b.sent == prompts + Then(a, b).sent
    ensures comments + a.posted + b.posted == comments + Then(a, b).posted
  {
  }

  /** A run's effect on the world, and what it came to. */
  datatype Done<T> = Done(effect: Effect, result: T)

  class World {
    var paths: set<string>          // paths that exist
    var dirs: set<string>           // the directories among them
    var commands: seq<Invocation>   // processes started, in order
    var prompts: seq<string>        // prompts sent to the model, in order
    var comments: seq<Comment>      // comments posted, in order

    const settings: map<string, string>
    const git: Invocation -> Exit
    const model: (string, string) -> ModelReply
    const mkdirFails: set<string>   // paths `mkdir(parents=True)` cannot create
    const trackerUp: bool           // whether the tracker accepts comments

    constructor(paths: set<string>, dirs: set<string>, settings: map<string, string>,
                git: Invocation -> Exit, model: (string, string) -> ModelReply,
                mkdirFails: set<string>, trackerUp: bool)
      ensures this.paths == paths && this.dirs == dirs
      ensures commands == [] && prompts == [] && comments == []
      ensures this.settings == settings && this.git == git && this.model == model
      ensures this.mkdirFails == mkdirFails && this.trackerUp == trackerUp
    {
      this.paths := paths;
      this.dirs := dirs;
      this.settings := settings;
      this.git := git;
      this.model := model;
      this.mkdirFails := mkdirFails;
      this.trackerUp := trackerUp;
      commands := [];
      prompts := [];
      comments := [];
    }

    /** The world is the old one with `e` applied. */
    twostate predicate Applied(e: Effect)
      reads this
    {
      && paths == old(paths) + e.created && dirs == old(dirs) + e.created
      && commands == old(commands) + e.issued && prompts == old(prompts) + e.sent
      && comments == old(comments) + e.posted
    }

    /** `Settings.get(key)`. */
    function Setting(key: string): (r: Option<string>)
      ensures r.Some? <==> key in settings
      ensures r.Some? ==> r.value == settings[key]
    {
      if key in settings then Some(settings[key]) else None
    }

    /** `Path(path).mkdir(parents=True, exist_ok=True)`. */
    method MakeDirs(path: string) returns (r: Result<(), Failure>)
      modifies this`paths, this`dirs
      ensures path in mkdirFails ==> r == Err(OSError(path)) && paths == old(paths) && dirs == old(dirs)
      ensures path !in mkdirFails ==>
                r == Ok(()) && paths == old(paths) + {path} && dirs == old(dirs) + {path}
    {
      if path in mkdirFails {
        return Err(OSError(path));
      }
      paths := paths + {path};
      dirs := dirs + {path};
      return Ok(());
    }

    /** Starts a process and waits for it. */
    method Run(inv: Invocation) returns (e: Exit)
      modifies this`commands
      ensures e == git(inv)
      ensures commands == old(commands) + [inv]
    {
      commands := commands + [inv];
      e := git(inv);
    }

    /** A successful `git clone` leaves a directory at its target. */
    method AddDirectory(path: string)
      modifies this`paths, this`dirs
      ensures paths == old(paths) + {path} && dirs == old(dirs) + {path}
    {
      paths := paths + {path};
      dirs := dirs + {path};
    }

    /** Records the prompts sent to the model. */
    method SendPrompts(sent: seq<string>)
      modifies this`prompts
      ensures prompts == old(prompts) + sent
    {
      prompts := prompts + sent;
    }

    /** `BacklogApiClient.add_issue_comment`: the tracker either accepts the
        comment or the request fails. */
    method PostComment(client: BacklogClient, issue: string, content: string) returns (r: Result<(), Failure>)
      modifies this`comments
      ensures trackerUp ==> r == Ok(()) && comments == old(comments) + [Comment(client.domain, issue, content)]
      ensures !trackerUp ==> r == Err(ConnectionError) && comments == old(comments)
    {
      if !trackerUp {
        return Err(ConnectionError);
      }
      comments := comments + [Comment(client.domain, issue, content)];
      return Ok(());
    }
  }
}
