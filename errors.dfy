/** The exceptions the reviewer raises, as values. Python's hierarchy is
    kept in the predicates below: `SystemExit` is not an `Exception`, and
    `ConfigurationError` is a kind of `GitReviewerError`. */
module Errors {

  /** Why `GeminiReviewer.review_code` failed. */
  datatype GeminiCause =
    | Blocked(reason: string)   // no text, the prompt feedback names a block reason
    | EmptyReview               // no text and no block reason
    | ApiFailure(message: string)  // the model call itself raised

  /** Why `GitClient._run_git_command` failed. */
  datatype GitFailure =
    | GitMissing                                  // the `git` binary could not be started
    | CommandFailed(argv: seq<string>, stderr: string)  // a checked command exited non-zero

  datatype Failure =
    | SystemExit(code: int)
    | ValueError
    | RuntimeError
    | KeyError(key: string)              // `str.format` without a value for a placeholder
    | FileNotFoundError(path: string)    // `GitClient` opened on a path that is not a directory
    | OSError(path: string)              // creating the local directory failed
    | ProcessNotStarted(argv: seq<string>)   // `subprocess.run` could not start the program
    | CalledProcessError(argv: seq<string>)  // `subprocess.run(check=True)` saw a non-zero exit
    | GitCommandError(git: GitFailure)
    | BranchNotFoundError(missing: seq<string>)
    | GeminiReviewerError(cause: GeminiCause)
    | ConfigurationError
    | GitReviewerError(inner: Failure)
    | ConnectionError                    // the issue tracker refused or could not be reached

  /** Caught by `except Exception`. */
  predicate IsException(f: Failure) {
    !f.SystemExit?
  }

  /** Caught by `except GitReviewerError`. */
  predicate IsGitReviewerError(f: Failure) {
    f.GitReviewerError? || f.ConfigurationError?
  }
}
