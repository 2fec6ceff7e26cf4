# git-gemini-reviewer, modelled in Dafny

git-gemini-reviewer reviews the changes between two branches of a Git
repository with Google's Gemini model. It clones the repository, or fetches
it if a working copy is already there. It checks that both remote branches
exist, takes the three-dot diff between them and drops the bodies of files
whose extension is not on an allow-list. It then fills a prompt template
and asks the model for a review. The result is either printed or, in
backlog mode, posted as a comment on a Backlog issue after control
characters are removed.

This project models that core and proves its properties:

- `Gemini` models the diff filter, prompt selection and model-reply handling of `GeminiReviewer`.
- `StringUtils` models the control-character sanitiser.
- `Git` models `GitClient`.
- `Generic` models `GitCodeReviewer`.
- `Backlog` models `BacklogCodeReviewer`.
- `Command` models the `review` command's `CodeReviewer`.
- `Cli` models the two entry points.

Helper modules:

- `Text` holds the few Python string operations the code relies on (`strip`, `in`, `lower`, `rpartition`, `join`, `splitlines`).
- `Paths` holds `Path(url).stem` and path joining.
- `Credentials` holds the key checks.
- `Errors` holds the exception hierarchy as a datatype.
- `Host` holds the surroundings:
  - the `World` class, whose fields are the paths and directories that exist, the processes started, the prompts sent and the comments posted;
  - the `git` executable, the model and the tracker, each answering through a fixed function;
  - the parsed command line.

The filter is an imperative loop proved against a function on lines. The
classes keep the source's fields: `geminiReviewer`, `gitClient` and
`backlogClient` are assigned by the setup methods, and the world's logs grow
with each command, prompt and comment. The methods that run a whole
operation state their result and their effect on the world through a pure
outcome function of the state they start in (`DiffRun`, `ReviewPass`,
`Preparation`, `Setup`, `BacklogReview`, `ReviewCommand`, `Session`), whose
properties are proved as that function's contract or as lemmas. An effect
lists the paths created, the processes started, the prompts sent and the
comments posted. The methods for single steps state their new fields
directly.

## Model

| member | source | states |
|---|---|---|
| Gemini.NormaliseAllowList | src/core/gemini_reviewer.py:22 | a missing or empty allow-list becomes None; otherwise every entry is lower-cased, in order, and not dot-prefixed |
| Gemini.FilterDiffByExtensions | src/core/gemini_reviewer.py:29-49 | with no allow-list the diff comes back unchanged; otherwise the one-pass loop over the lines yields exactly `FilterText`, the joined kept lines |
| Gemini.KeptLines | src/core/gemini_reviewer.py:37-47 | a `diff --git` line is kept and clears relevance; `--- `, `+++ ` and `@@ ` lines are always kept; any other line is kept iff the `+++ ` line in force has an allowed extension |
| Gemini.RelevanceIsLastNewPath | src/core/gemini_reviewer.py:35-45 | the relevance flag at a position is true iff the last `+++ ` line since the last file boundary has an allowed extension |
| Gemini.NewPathIsNoFileStart | src/core/gemini_reviewer.py:38-45 | a `+++ ` line is never a file boundary, so the two tests of the loop never both apply |
| Gemini.ExtensionAfterLastDot | src/core/gemini_reviewer.py:39-41 | for a `+++ ` line whose path is `front.ext` with no surrounding whitespace and no `.` in `ext`, the compared extension is `.` followed by `ext` lower-cased |
| Gemini.Extension | src/core/gemini_reviewer.py:39-41 | the compared extension always starts with `.` |
| Gemini.FilterLines | src/core/gemini_reviewer.py:34-47 | the lines the loop appends, never more than the input has |
| Gemini.FilterText | src/core/gemini_reviewer.py:29-49 | with no allow-list, or an empty one, the diff comes back unchanged; otherwise the kept lines joined by line feeds |
| Gemini.UndottedAllowListKeepsOnlyHeaders | src/core/gemini_reviewer.py:22 | since the compared extension always starts with `.`, an allow-list written without dots keeps only boundaries and headers |
| Gemini.NeverRelevant | src/core/gemini_reviewer.py:22 | with an allow-list written without dots no file is ever relevant |
| Gemini.FilterLinesAreKeptLines | src/core/gemini_reviewer.py:34-49 | the output is the kept input lines, each once, in their original order, and a position contributes iff its line is kept |
| Gemini.FilterLinesIsSubsequence | src/core/gemini_reviewer.py:34-49 | the filtered lines are a subsequence of the input lines |
| Gemini.FilterLinesFromInput | src/core/gemini_reviewer.py:34-49 | every filtered line is a line of the input |
| Gemini.FilterKeepsRelevance | src/core/gemini_reviewer.py:37-45 | the relevance after the filtered lines equals the relevance after the input |
| Gemini.FilterLinesIsIdempotent | src/core/gemini_reviewer.py:34-49 | filtering the filtered lines again gives the same lines |
| Gemini.FilterTextIsIdempotent | src/core/gemini_reviewer.py:29-49 | on text, filtering twice equals filtering once whenever the last kept line is non-empty |
| Gemini.FilterTextDropsTrailingEmptyLine | src/core/gemini_reviewer.py:37-49 | counterexample to text idempotence: a relevant `+++ ` line followed by an empty line loses its last line feed on the first pass and the line feed before it on the second |
| Gemini.SplitLinesCons | src/core/gemini_reviewer.py:37 | splitting a line ended by a line feed yields that line followed by the split of the rest |
| Gemini.Format | src/core/gemini_reviewer.py:55-63 | named substitution fails iff some placeholder has no value, naming such a key |
| Gemini.FormatAroundPlaceholder | src/core/gemini_reviewer.py:55-63 | a successful substitution is the substitution before a placeholder, its value, then the substitution after it |
| Gemini.BuildReviewPrompt | src/core/gemini_reviewer.py:51-63 | the prompt fails only with a `KeyError` |
| Gemini.PromptFromTemplate | src/core/gemini_reviewer.py:51-63 | the backlog template is used iff the issue key is truthy; the prompt is built iff every placeholder is `code_diff` or, with a truthy key, `issue_key`; the diff is inserted verbatim |
| Gemini.ReadReply | src/core/gemini_reviewer.py:90-105 | an empty text is an error naming the block reason when one is set and otherwise reporting an empty result; a raised call is an API failure; a non-empty text comes back stripped |
| Gemini.NewGeminiReviewer | src/core/gemini_reviewer.py:17-25 | keeps the model name and the two templates; the allow-list is None iff it was missing or empty, and otherwise has the same length with each entry lower-cased |
| Gemini.Review | src/core/gemini_reviewer.py:65-105 | a blank filtered diff gives `""` and sends nothing; at most one prompt is sent, and it is the prompt built from the filtered diff; a success with no prompt sent is `""`; a failure after a prompt was sent is a `GeminiReviewerError` |
| Gemini.ReviewCode | src/core/gemini_reviewer.py:65-105 | a blank filtered diff gives `""` with no prompt sent; a prompt error is returned unwrapped; otherwise exactly one prompt, the one built from the filtered diff, is sent; reply failures are wrapped in `GeminiReviewerError`; a review has no surrounding whitespace |
| StringUtils.TabAndLineBreaksAreKept | src/core/string_utils.py:4-6 | tab, line feed and carriage return are not removed |
| StringUtils.RemoveControlChars | src/core/string_utils.py:6-33 | the output has no code point in U+0000–U+0008, U+000B, U+000C, U+000E–U+001F or U+007F–U+009F, and is no longer than the input |
| StringUtils.Sanitize | src/core/string_utils.py:8-33 | None or a non-string gives `""`; the output never holds a removed code point |
| StringUtils.RemoveControlCharsCounts | src/core/string_utils.py:33 | every kept character occurs exactly as often as in the input, every removed one not at all |
| StringUtils.RemoveControlCharsIsSubsequence | src/core/string_utils.py:33 | the output is a subsequence of the input, so the kept characters keep their order |
| StringUtils.RemoveControlCharsIsIdempotent | src/core/string_utils.py:33 | removing control characters twice equals removing them once |
| StringUtils.RemoveControlCharsUnchangedIff | src/core/string_utils.py:33 | the output equals the input iff the input has no removed code point |
| StringUtils.SanitizeIsIdempotent | src/core/string_utils.py:20-33 | sanitising a sanitised string changes nothing |
| Git.CommandOutcome | src/core/git_client.py:55-68 | a missing `git` or a checked command exiting non-zero becomes a `GitCommandError`, the latter carrying the command and its stderr; an unchecked command never fails once started |
| Git.GitClient.Open | src/core/git_client.py:27-39 | the client is created iff the path is a directory, otherwise `FileNotFoundError` |
| Git.GitClient.RunGitCommand | src/core/git_client.py:41-68 | exactly one `git` process is started, in the repository, and its outcome is mapped by `CommandOutcome` |
| Git.GitClient.FetchUpdates | src/core/git_client.py:70-73 | runs `fetch <remote> --prune`, checked |
| Git.GitClient.RemoteBranchExists | src/core/git_client.py:75-81 | runs `show-ref --verify refs/remotes/<remote>/<branch>`; the branch exists iff it exits 0; only a missing `git` makes it fail |
| Git.DiffRun | src/core/git_client.py:83-123 | `get_diff` from what `git` answers: one to four commands are issued, all four when a diff is returned |
| Git.GitClient.GetDiff | src/core/git_client.py:83-123 | the commands issued and the result are those of `DiffRun` |
| Git.DiffFetchesFirst | src/core/git_client.py:99-100 | the first command is the fetch, and the commands issued are a prefix of fetch, base check, feature check, diff |
| Git.MissingInOrder | src/core/git_client.py:103-107 | the missing list is empty iff both branches exist, has one entry per missing branch, base first, each written `remote/branch` |
| Git.DiffReportsMissingBranches | src/core/git_client.py:103-110 | `BranchNotFoundError` is raised iff the fetch succeeded, both checks ran and one branch is missing; it lists the missing branches and no diff command is issued |
| Git.DiffSucceeds | src/core/git_client.py:114-123 | `get_diff` succeeds iff all four commands exit 0; it then issued exactly fetch, two checks and `diff <remote>/<base>...<remote>/<feature> --unified=10`, and returns the diff's stdout |
| Git.DiffOnlyWithBothBranches | src/core/git_client.py:109-119 | the diff command is only issued when both `show-ref` checks exited 0 |
| Git.DiffWithoutGit | src/core/git_client.py:64-65 | without a `git` binary only the fetch is attempted and the error is `GitCommandError` |
| Paths.RepoNameOfGitUrl | src/git_gemini_reviewer/generic_reviewer.py:69 | a clone URL `<prefix>/<name>.git` names the working copy `<name>` |
| Paths.RepoName | src/git_gemini_reviewer/generic_reviewer.py:69 | the working copy's name has no `/`, so it is a direct child of the local path |
| Paths.Name | src/git_gemini_reviewer/generic_reviewer.py:69 | the last path component is never `.` and no longer than the path; a path without `/` is its own name, except `.`, which names nothing |
| Paths.StemOfName | src/git_gemini_reviewer/generic_reviewer.py:69 | the stem is a prefix of the name; when it is shorter, the name goes on with a `.` that is neither its first nor its last character, and no `.` follows that one |
| Generic.RepoPath | src/git_gemini_reviewer/generic_reviewer.py:69-81 | the working copy's path starts with the local path; when a name follows, it is one `/` and then a name with no `/`, so the working copy is a direct child of the local path |
| Generic.RepoPathOfGitUrl | src/git_gemini_reviewer/generic_reviewer.py:69-81 | a clone URL `<prefix>/<name>.git` puts the working copy at `<local_path>/<name>` |
| Paths.JoinPath | src/git_gemini_reviewer/generic_reviewer.py:81 | `base / name` is the base, one `/`, then the name; an empty name gives the base |
| Paths.NameHasNoSeparator | src/git_gemini_reviewer/generic_reviewer.py:69 | the last path component of a URL has no `/` |
| Host.CheckedRun | src/git_gemini_reviewer/generic_reviewer.py:89 | a checked `subprocess.run` succeeds iff the program started and exited 0; a missing program is `FileNotFoundError`, a non-zero exit `CalledProcessError` carrying the command |
| Host.World.MakeDirs | src/git_gemini_reviewer/generic_reviewer.py:75 | the directory is created, as a path and a directory, unless creating it fails, in which case it is an `OSError` and nothing changes |
| Host.World.Run | src/core/git_client.py:56-63 | the invocation is logged once, and its outcome is what `git` answers to it |
| Host.World.AddDirectory | src/git_gemini_reviewer/generic_reviewer.py:89 | a successful clone leaves its target as a path and a directory |
| Host.World.PostComment | src/git_gemini_reviewer/backlog_reviewer.py:54 | with the tracker reachable the comment is appended once, to the client's space; otherwise a connection error and nothing posted |
| Credentials.GeminiKeyRule | src/git_gemini_reviewer/generic_reviewer.py:53-55 | the Gemini key is accepted iff it is set, non-empty and `YOUR_GEMINI_API_KEY` occurs nowhere in it |
| Credentials.GeminiPlaceholderRefused | src/git_gemini_reviewer/generic_reviewer.py:54 | any key containing the placeholder is refused |
| Credentials.BacklogCredentialsRule | src/git_gemini_reviewer/backlog_reviewer.py:22-25 | the Backlog credentials are accepted iff both are set and non-empty, the key does not contain `YOUR_API_KEY` and the domain does not contain `your-space.backlog.jp` |
| Credentials.BacklogPlaceholderDomainRefused | src/git_gemini_reviewer/backlog_reviewer.py:25 | any domain containing the sample domain is refused |
| Generic.PrepareCommand | src/git_gemini_reviewer/generic_reviewer.py:86-95 | a `git` command on the working copy; it clones exactly when the copy is absent, and otherwise fetches every remote (`fetch --all`) |
| Generic.Preparation | src/git_gemini_reviewer/generic_reviewer.py:62-103 | `_prepare_local_repository` from the paths there are: a returned path is `local_path/stem`; every failure is a reviewer error; only the local path and the working copy can be created; at most one command runs, and exactly one when it succeeds or the local path exists; a working copy it creates was absent and means success; an absent local path is created, and when `mkdir` fails there nothing runs and the result is `GitReviewerError(OSError)`; the one command is `clone url path` when the working copy is absent and `-C path fetch --all` when it is present; the preparation succeeds iff that command does, a failed command is `GitReviewerError` of its error, and a successful clone creates the working copy |
| Generic.Setup | src/git_gemini_reviewer/generic_reviewer.py:42-44 | a refused Gemini key does nothing; the client can be opened only on a working copy that is, or has become, a directory; setup sends no prompt, posts nothing and starts at most one process |
| Generic.ReviewPass | src/git_gemini_reviewer/generic_reviewer.py:111-133 | the review pass from what `git` and the model answer: its commands are those of `DiffRun`; a failed diff is returned as its error with no prompt; a blank diff gives None with no prompt; otherwise the prompts and the result are those of `review_code` (`Review`) on the diff, the review unchanged, with at most one prompt |
| Generic.GitCodeReviewer.SetupGeminiReviewer | src/git_gemini_reviewer/generic_reviewer.py:51-60 | the reviewer is set up iff the key is accepted; otherwise `ConfigurationError`, and the field is left as it was |
| Generic.GitCodeReviewer.PrepareLocalRepository | src/git_gemini_reviewer/generic_reviewer.py:62-103 | `Prepared` ties the result and the world's new state to `Preparation`, whose contract states that the local path is created when absent, and a creation failure is a `GitReviewerError` with nothing run; exactly one `clone url path` (absent) or `-C path fetch --all` (present) runs; the working copy is `local_path/stem`; the result is `Ok` iff the command succeeds, a failed command is `GitReviewerError` of its error, and a successful clone creates the working copy |
| Generic.GitCodeReviewer.SetupGitClient | src/git_gemini_reviewer/generic_reviewer.py:105-108 | the client is opened on the prepared working copy; a preparation failure is a reviewer error; a working copy that is not a directory is `FileNotFoundError` |
| Generic.GitCodeReviewer.Initialize | src/git_gemini_reviewer/generic_reviewer.py:42-48 | the world changes by exactly the effect of `Setup`, and setup succeeds iff `Setup` says the client can be opened; a refused key exits with 1 and changes nothing; otherwise the Gemini reviewer is set, a failed preparation exits with 1, and a working copy that is not a directory is `FileNotFoundError`; on success the git client is new and opened on `local_path/stem`, on failure it is left as it was |
| Generic.GitCodeReviewer.ProcessDiffAndReview | src/git_gemini_reviewer/generic_reviewer.py:111-133 | missing clients give `RuntimeError` with nothing run; otherwise the commands, prompts and result are those of `ReviewPass`, so a non-blank diff's review is `review_code`'s result unchanged |
| Generic.GitCodeReviewer.ExecuteReview | src/git_gemini_reviewer/generic_reviewer.py:135-149 | the review pass's result, with reviewer errors passed on and any other exception wrapped in `GitReviewerError` |
| Generic.Escalate | src/git_gemini_reviewer/generic_reviewer.py:144-149 | reviewer errors and exits are unchanged; every other exception becomes a `GitReviewerError` |
| Generic.ExecuteReviewFailures | src/git_gemini_reviewer/generic_reviewer.py:144-149 | what escalates is a reviewer error or an exit, and escalating twice changes nothing |
| Generic.BlankDiffIsNotReviewed | src/git_gemini_reviewer/generic_reviewer.py:119-123 | nothing is sent to the model unless the diff was taken and is not blank; a blank diff gives None |
| Generic.ReviewPassResult | src/git_gemini_reviewer/generic_reviewer.py:128-133 | a returned review has no surrounding whitespace, and exactly one prompt was sent for it unless filtering left nothing, in which case the review is `""` |
| Generic.ReviewPassFailures | src/git_gemini_reviewer/generic_reviewer.py:111-133 | a review pass fails only with an exception, never an exit |
| Backlog.BacklogSession | src/git_gemini_reviewer/backlog_reviewer.py:20-29 | the tracker session is made iff the credentials are accepted, from exactly those settings; otherwise exit 1 |
| Backlog.BacklogReview | src/git_gemini_reviewer/backlog_reviewer.py:31-61 | every failure is an exit with 1, and a success returns None; it succeeds iff the issue id is truthy, the credentials are accepted, the pass succeeds and, for a truthy review, the tracker is reachable; a falsy id or refused credentials do nothing; otherwise the pass's commands and prompts are issued, and something is posted iff it succeeds with a truthy review: that review, once, sanitised, to the issue in the session's space |
| Backlog.BacklogCodeReviewer.ExecuteReview | src/git_gemini_reviewer/backlog_reviewer.py:31-61 | the result and the world's new logs are those of `BacklogReview` for the review pass the inherited part takes; the session is stored exactly when the id is truthy and the credentials are accepted |
| Backlog.BacklogCodeReviewer.PlannedFailures | src/git_gemini_reviewer/backlog_reviewer.py:48-61 | the inherited review fails only with an exception, so `except Exception` catches every failure |
| Command.GeminiSession | src/git_gemini_reviewer/commands/review.py:45-53 | the reviewer is made iff the key is accepted; otherwise exit 1 |
| Command.FetchOrClone | src/git_gemini_reviewer/commands/review.py:73-83 | a four-word `git` command on the working copy; it clones exactly when the copy is absent, and otherwise runs a plain `fetch` |
| Command.IssueText | src/git_gemini_reviewer/commands/review.py:152 | the issue id as written into the tracker path: the id itself, or `None` when unset |
| Command.Checkout | src/git_gemini_reviewer/commands/review.py:55-93 | `_prepare_local_repository` from the paths there are: a returned path is `local_path/stem`; every failure is an exit with 1; exactly one command runs, the plain fetch when the working copy exists and the clone otherwise; the result is `Ok` iff that command succeeds; a successful clone creates the working copy, and a working copy it creates was absent |
| Command.PassThenPost | src/git_gemini_reviewer/commands/review.py:141-164 | steps 4 and 5: the pass's commands and prompts are issued; it succeeds iff the pass succeeds and, for a truthy review, the tracker is reachable; something is posted iff it succeeds with a truthy review: that review, once, sanitised, to the issue; failures exit with 1 |
| Command.OpenThenReview | src/git_gemini_reviewer/commands/review.py:126-164 | steps 2 to 5: it succeeds iff the checkout succeeds, leaves a directory and `PassThenPost` succeeds; the paths created are the checkout's; prompts are sent and comments posted only when the working copy could be opened |
| Command.ReviewCommand | src/git_gemini_reviewer/commands/review.py:115-164 | `execute_review` from the world it starts in: every failure is an exit with 1; refused tracker or Gemini credentials exit with 1 and do nothing else; with both accepted it is `OpenThenReview`; it succeeds iff both credentials are accepted, the checkout leaves a directory and `PassThenPost` succeeds; a posted comment means success with a truthy review, posted once, sanitised, to the issue in the session's space |
| Command.CodeReviewer.PrepareLocalRepository | src/git_gemini_reviewer/commands/review.py:55-93 | exactly one `clone url path` (absent) or `-C path fetch` (present, without `--all`) runs for `local_path/stem`; the result and the world's new state are `Checkout`'s, so the result is `Ok` iff that command succeeds and any failure exits with 1 |
| Command.CodeReviewer.ProcessDiffAndReview | src/git_gemini_reviewer/commands/review.py:95-113 | missing clients give `RuntimeError`; otherwise the commands, prompts and result are those of `ReviewPass` with the issue id given, so a non-blank diff's review is `review_code`'s result unchanged |
| Command.CodeReviewer.PostReview | src/git_gemini_reviewer/commands/review.py:149-155 | a truthy review is posted once, sanitised, to the issue id (written `None` when unset); a falsy one posts nothing |
| Command.CodeReviewer.OpenRepository | src/git_gemini_reviewer/commands/review.py:126-139 | the world changes by exactly the effect of `Checkout`; it succeeds iff the checkout succeeded and the working copy is a directory, and then the git client is new and opened on `local_path/stem`; otherwise it exits with 1 and leaves the client as it was |
| Command.CodeReviewer.ReviewAndPost | src/git_gemini_reviewer/commands/review.py:141-164 | the result and the world's new logs are those of `PassThenPost` for the planned review pass |
| Command.CodeReviewer.OpenAndReview | src/git_gemini_reviewer/commands/review.py:126-164 | the result and the world's new state are those of `OpenThenReview`; the git client is new and opened on the working copy iff the checkout succeeded and left the working copy as a directory, and otherwise it is the same client as before |
| Command.CodeReviewer.ExecuteReview | src/git_gemini_reviewer/commands/review.py:115-164 | the result and the world's new state are those of `ReviewCommand`; the tracker session is stored iff it is accepted and the field is otherwise unchanged; the Gemini reviewer is stored iff both sessions are accepted and is otherwise unchanged; the git client is new and opened on `local_path/stem` iff both were accepted and the working copy could be opened, and is otherwise the same client as before |
| Cli.SelectReviewer | src/git_gemini_reviewer/cli.py:37-52 | backlog mode with posting and no issue id is a `ValueError`; with an id, the backlog reviewer; generic mode or `--no-post`, the generic reviewer whatever the id |
| Cli.PrintReviewResult | src/git_gemini_reviewer/cli.py:54-61 | a truthy result is printed between the banner and the rule; otherwise the "nothing to review" line |
| Cli.ExitStatus | src/git_gemini_reviewer/cli.py:26-35 | an exit keeps its code; every exception that `run_reviewer` catches gives 1 |
| Cli.DefaultLocalPath | src/git_gemini_reviewer/cli.py:11 | the default local path is the working directory followed by `var/tmp`, with one `/` between them unless the working directory already ends in `/` (or is empty) |
| Cli.GenericRun | src/git_gemini_reviewer/cli.py:16-35 | `run_reviewer` with a `GitCodeReviewer`: a failed setup exits with 1 and has only the setup's effect; a pass that raises exits with 1; a successful pass exits with 0 and prints and returns its value; nothing is ever posted |
| Cli.BacklogRun | src/git_gemini_reviewer/cli.py:16-35 | `run_reviewer` with a `BacklogCodeReviewer`: the status is 0 or 1, and 0 iff the setup and the backlog `execute_review` succeed; on success nothing is returned, so the "nothing to review" line is printed; a post happens only in a run that exits with 0 |
| Cli.Session | src/git_gemini_reviewer/cli.py:16-35 | `run_reviewer` from the world it starts in: the status is 0 or 1, and 0 iff a reviewer was chosen, its setup could open the git client, and its `execute_review` (the review pass, or in backlog mode `BacklogReview`) succeeded; lines are printed only on success, and then they are the printed form of the result; a generic run returns the pass's review; a backlog run returns None and is the only kind that posts; a selection error or a refused Gemini key changes nothing; prompts are sent only after a successful setup |
| Cli.NewGitReviewer | src/git_gemini_reviewer/cli.py:52 | constructing a `GitCodeReviewer` changes the world by the effect of `Setup`; it succeeds iff `Setup` says so, and then the reviewer's planned pass is the one `Session` uses; failures give status 1 |
| Cli.NewBacklogReviewer | src/git_gemini_reviewer/cli.py:45 | the same for a `BacklogCodeReviewer`, whose inherited part is set up |
| Cli.RunGitReviewer | src/git_gemini_reviewer/cli.py:16-35 | the status, printed lines, result and effect are those of the generic branch of `Session` |
| Cli.RunBacklogReviewer | src/git_gemini_reviewer/cli.py:16-35 | the status, printed lines, result and effect are those of the backlog branch of `Session` |
| Cli.RunReviewer | src/git_gemini_reviewer/cli.py:16-35 | the status, printed lines, returned value and the world's new state are exactly those of `Session` |
| Cli.CommonArgs | src/git_gemini_reviewer/cli.py:65-82 | unset options default to `main`, `develop`, `<cwd>/var/tmp` and `gemini-2.0-flash`; given ones are kept |
| Text.StripCuts | src/core/gemini_reviewer.py:39 | `strip` removes a leading and trailing run of whitespace and leaves no whitespace at either end |
| Text.StripIsIdempotent | src/core/gemini_reviewer.py:99 | stripping twice equals stripping once |
| Text.BlankIffAllSpace | src/git_gemini_reviewer/generic_reviewer.py:121 | `not s.strip()` holds iff every character is whitespace |
| Text.ContainsIffOccurs | src/git_gemini_reviewer/generic_reviewer.py:54 | `sub in s` holds iff `sub` occurs at some index of `s` |
| Text.LowerPointwise | src/core/gemini_reviewer.py:41 | `lower` keeps the length and maps each character on its own |
| Text.AfterLastIsSuffix | src/core/gemini_reviewer.py:40 | the part after the last separator is a suffix free of the separator, preceded by the separator when it is not the whole string |
| Text.SplitLines | src/core/gemini_reviewer.py:37 | no line of the split contains a line feed |
| Text.SplitJoin | src/core/gemini_reviewer.py:37-49 | splitting lines joined by line feeds gives them back when none holds a line feed and the last is non-empty |

## Left out

- Text.SplitLines: only the line feed splits lines; Python's `splitlines` also splits on carriage returns and other line boundaries.
- Text.Lower: lower-cases ASCII letters only, not all of Unicode.
- Format: covers named placeholders only. The template files are not read: their contents are given, and reading them is I/O. Escaped braces, format specs and positional fields are not modelled.
- The Gemini SDK is not modelled: `genai.configure`, `GenerativeModel`, and `generate_content` over the network. The model is a fixed function from model name and prompt to a reply.
- Construction wiring is not modelled:
  - The reviewers call `GeminiReviewer(api_key, model_name)` without the prompt paths its constructor requires. The model builds the reviewer from given `PromptFiles`.
  - `commands/review.py` passes `repo_url` and `ssh_key_path` to `GitClient`, which takes only `repo_path`. The model opens the client on the repository path.
- Git.GitClient.RunGitCommand: output that is not valid UTF-8 makes `subprocess.run` raise `UnicodeDecodeError`, which `_run_git_command` does not wrap; the model's `git` answers are already text, so this error cannot occur.
- Git.GitClient.Open: does not model `Path.resolve()`; the path is checked as given.
- Paths.JoinPath: does not model `pathlib` normalisation of the base path (trailing separators, `.` components).
- Generic.GitCodeReviewer.PrepareLocalRepository: `mkdir(parents=True)` is modelled as creating the one directory. A successful clone is modelled as leaving a directory at its target.
- The external `git` program is not modelled. Its answer to each invocation is fixed, and what it does to the repository is not modelled beyond the directory a clone leaves.
- `core/backlog_api_client.py` is not part of this model: a REST client with a timeout and JSON decoding. Posting a comment either succeeds or fails with a connection error.
- `core/settings.py` is not part of this model. `Settings.get` is a lookup in a fixed map.
- No output, messages or argument parsing are modelled:
  - messages printed to stdout or stderr, and exception messages (errors carry their data instead);
  - the "project id" that is only printed;
  - `argparse` parsing itself.
  - The exception is `_print_review_result`, whose lines are returned.
- Not modelled because the code does not do them: comparing the origin URL and re-cloning, SSH key handling, and collapsing blank lines in prompts. Two behaviours are modelled as the code has them:
  - allow-list entries are compared with a dot-prefixed extension but are not dot-prefixed themselves;
  - the branch defaults are `main` and `develop`.
- Backlog: a `BacklogCodeReviewer` is modelled by composition. Its inherited setup is `base.Initialize`, and the super call is `base.ExecuteReview`.
