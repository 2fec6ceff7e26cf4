/** `core/gemini_reviewer.py`: restricting a diff to allowed file
    extensions, choosing and filling the prompt template, and turning the
    model's reply into a review text or an error. */
module Gemini {
  import opened Wrappers
  import opened Text
  import opened Subsequence
  import opened Errors

  // ---------------------------------------------------------------------
  // Prompt templates and `str.format`

  /** A prompt template, already split into literal text and named
      placeholders `{name}`. */
  datatype Piece = Literal(text: string) | Placeholder(name: string)
  type Template = seq<Piece>

  /** `template.format(**values)`: each placeholder is replaced by its value;
      the first placeholder without a value raises `KeyError` with its name. */
  function Format(t: Template, values: map<string, string>): (r: Result<string, string>)
    ensures r.Err? <==> exists k :: 0 <= k < |t| && t[k].Placeholder? && t[k].name !in values
    ensures r.Err? ==> r.error !in values
  {
    if t == [] then Ok([])
    else
      var rest := Format(t[1..], values);
      match t[0]
      case Literal(s) =>
        assert forall k :: 1 <= k < |t| ==> t[k] == t[1..][k - 1];
        if rest.Err? then rest else Ok(s + rest.value)
      case Placeholder(n) =>
        assert forall k :: 1 <= k < |t| ==> t[k] == t[1..][k - 1];
        if n !in values then Err(n)
        else if rest.Err? then rest else Ok(values[n] + rest.value)
  }

  /** Formatting a non-empty template: its first piece, then the rest. */
  lemma FormatCons(t: Template, values: map<string, string>)
    requires t != []
    ensures Format(t, values).Ok? <==> (t[0].Literal? || t[0].name in values) && Format(t[1..], values).Ok?
    ensures Format(t, values).Ok? ==>
              Format(t, values).value
              == (if t[0].Literal? then t[0].text else values[t[0].name]) + Format(t[1..], values).value
  {
  }

  /** Whatever surrounds a placeholder in the template surrounds its value,
      verbatim, in the formatted text. */
  lemma {:induction false} FormatAroundPlaceholder(t: Template, values: map<string, string>, k: nat)
    requires k < |t| && t[k].Placeholder? && Format(t, values).Ok?
    ensures Format(t[..k], values).Ok? && Format(t[k + 1..], values).Ok?
    ensures Format(t, values).value
         == Format(t[..k], values).value + values[t[k].name] + Format(t[k + 1..], values).value
  {
    FormatCons(t, values);
    if k == 0 {
      assert t[..0] == [];
      assert t[1..] == t[k + 1..];
    } else {
      var u := t[..k];
      assert t[1..][k - 1] == t[k];
      FormatAroundPlaceholder(t[1..], values, k - 1);
      assert u[0] == t[0];
      assert u[1..] == t[1..][..k - 1];
      assert t[1..][k..] == t[k + 1..];
      FormatCons(u, values);
      var head := if t[0].Literal? then t[0].text else values[t[0].name];
      var a, b := Format(u[1..], values).value, Format(t[k + 1..], values).value;
      assert Format(t, values).value == head + (a + values[t[k].name] + b);
      assert Format(u, values).value == head + a;
    }
  }

  // ---------------------------------------------------------------------
  // The reviewer and its allow-list

  /** A `GeminiReviewer` after construction: the model name, the normalised
      allow-list and the two templates read from the prompt files. */
  datatype GeminiReviewer = GeminiReviewer(
    modelName: string,
    allowedExtensions: Option<seq<string>>,
    genericTemplate: Template,
    backlogTemplate: Template)

  /** The allow-list as `__init__` stores it: `None` for a missing or empty
      list, otherwise every entry lower-cased (and not dot-prefixed). */
  function NormaliseAllowList(exts: Option<seq<string>>): (r: Option<seq<string>>)
    ensures r.None? <==> (exts.None? || exts.value == [])
    ensures r.Some? ==> |r.value| == |exts.value|
                        && forall i :: 0 <= i < |r.value| ==> r.value[i] == Lower(exts.value[i])
  {
    if exts.None? || exts.value == [] then None
    else Some(seq(|exts.value|, i requires 0 <= i < |exts.value| => Lower(exts.value[i])))
  }

  /** The contents of the two prompt files and the extension allow-list a
      `GeminiReviewer` is built from. */
  datatype PromptFiles = PromptFiles(generic: Template, backlog: Template, allowedExtensions: Option<seq<string>>)

  /** `GeminiReviewer.__init__`, with the template files' contents given. */
  function NewGeminiReviewer(modelName: string, exts: Option<seq<string>>,
                             genericTemplate: Template, backlogTemplate: Template): (r: GeminiReviewer)
    ensures r.modelName == modelName
    ensures r.genericTemplate == genericTemplate && r.backlogTemplate == backlogTemplate
    ensures r.allowedExtensions.None? <==> (exts.None? || exts.value == [])
    ensures r.allowedExtensions.Some? ==>
              && |r.allowedExtensions.value| == |exts.value|
              && forall i :: 0 <= i < |exts.value| ==> r.allowedExtensions.value[i] == Lower(exts.value[i])
  {
    GeminiReviewer(modelName, NormaliseAllowList(exts), genericTemplate, backlogTemplate)
  }

  // ---------------------------------------------------------------------
  // The diff filter, line by line

  predicate IsFileStart(line: string) { StartsWith(line, "diff --git") }
  predicate IsNewPath(line: string) { StartsWith(line, "+++ ") }
  predicate IsHeader(line: string) {
    StartsWith(line, "--- ") || IsNewPath(line) || StartsWith(line, "@@ ")
  }

  lemma NewPathIsNoFileStart(line: string)
    ensures IsNewPath(line) ==> !IsFileStart(line)
  {
    if IsNewPath(line) {
      assert line[0] == "+++ "[0];
    }
  }

  /** The extension of a `+++ ` line's path, as compared with the list: the
      text after the last `.` of the stripped path (the whole path when it
      has no `.`), lower-cased, with a `.` in front. */
  function Extension(line: string): (r: string)
    requires IsNewPath(line)
    ensures |r| >= 1 && r[0] == '.'
  {
    "." + Lower(AfterLast(Strip(line[4..]), '.'))
  }

  /** Whether the current file is relevant after `line` has been read. */
  function Step(allowed: seq<string>, relevant: bool, line: string): (r: bool) {
    if IsNewPath(line) then Extension(line) in allowed
    else if IsFileStart(line) then false
    else relevant
  }

  /** Whether `line` is kept, given the relevance before it. */
  predicate Keeps(allowed: seq<string>, relevant: bool, line: string) {
    IsFileStart(line) || Step(allowed, relevant, line) || IsHeader(line)
  }

  /** The relevance flag after reading all of `lines`. */
  function RelevanceAfter(allowed: seq<string>, lines: seq<string>): bool
    decreases |lines|
  {
    if lines == [] then false
    else Step(allowed, RelevanceAfter(allowed, lines[..|lines| - 1]), lines[|lines| - 1])
  }

  /** Whether line `i` of `lines` is kept. */
  predicate Kept(allowed: seq<string>, lines: seq<string>, i: nat)
    requires i < |lines|
  {
    Keeps(allowed, RelevanceAfter(allowed, lines[..i]), lines[i])
  }

  /** The lines the filter keeps, in order. */
  function FilterLines(allowed: seq<string>, lines: seq<string>): (r: seq<string>)
    ensures |r| <= |lines|
    decreases |lines|
  {
    if lines == [] then []
    else
      var prior := lines[..|lines| - 1];
      var last := lines[|lines| - 1];
      FilterLines(allowed, prior)
        + (if Keeps(allowed, RelevanceAfter(allowed, prior), last) then [last] else [])
  }

  /** `_filter_diff_by_extensions` on the diff text. */
  function FilterText(allowed: Option<seq<string>>, diff: string): (r: string)
    ensures allowed.None? || allowed.value == [] ==> r == diff
  {
    if allowed.None? || allowed.value == [] then diff
    else Join("\n", FilterLines(allowed.value, SplitLines(diff)))
  }

  /** `_filter_diff_by_extensions`: one pass over the lines with the flag
      `is_relevant_file`. */
  method FilterDiffByExtensions(g: GeminiReviewer, codeDiff: string) returns (r: string)
    ensures (g.allowedExtensions.None? || g.allowedExtensions.value == []) ==> r == codeDiff
    ensures r == FilterText(g.allowedExtensions, codeDiff)
  {
    if g.allowedExtensions.None? || g.allowedExtensions.value == [] {
      return codeDiff;
    }
    var allowed := g.allowedExtensions.value;
    var lines := SplitLines(codeDiff);
    var filtered: seq<string> := [];
    var relevant := false;
    for i := 0 to |lines|
      invariant relevant == RelevanceAfter(allowed, lines[..i])
      invariant filtered == FilterLines(allowed, lines[..i])
    {
      var line := lines[i];
      NewPathIsNoFileStart(line);
      if StartsWith(line, "+++ ") {
        var filePath := Strip(line[4..]);
        var extension := AfterLast(filePath, '.');
        relevant := "." + Lower(extension) in allowed;
      }
      if StartsWith(line, "diff --git") {
        relevant := false;
        filtered := filtered + [line];
      } else if relevant || StartsWith(line, "--- ") || StartsWith(line, "+++ ") || StartsWith(line, "@@ ") {
        filtered := filtered + [line];
      }
      assert lines[..i + 1][..i] == lines[..i];
    }
    assert lines[..|lines|] == lines;
    r := Join("\n", filtered);
  }

  // ---------------------------------------------------------------------
  // What the filter keeps

  /** Positions of the kept lines, in increasing order. */
  ghost function KeptPositions(allowed: seq<string>, lines: seq<string>): seq<nat>
    decreases |lines|
  {
    if lines == [] then []
    else
      var prior := lines[..|lines| - 1];
      KeptPositions(allowed, prior)
        + (if Kept(allowed, lines, |lines| - 1) then [|lines| - 1] else [])
  }

  /** The filter's output is the input's kept lines, each once, in their
      original order, and a line is among them exactly when it is kept. */
  lemma {:induction false} FilterLinesAreKeptLines(allowed: seq<string>, lines: seq<string>)
    ensures Embeds(FilterLines(allowed, lines), lines, KeptPositions(allowed, lines))
    ensures forall i :: 0 <= i < |lines| ==>
              (i in KeptPositions(allowed, lines) <==> Kept(allowed, lines, i))
    decreases |lines|
  {
    if lines != [] {
      var n := |lines| - 1;
      var prior := lines[..n];
      FilterLinesAreKeptLines(allowed, prior);
      assert forall i :: 0 <= i < n ==> prior[..i] == lines[..i] && prior[i] == lines[i];
      assert forall i :: 0 <= i < n ==> (Kept(allowed, prior, i) <==> Kept(allowed, lines, i));
      EmbedsSnoc(FilterLines(allowed, prior), lines, KeptPositions(allowed, prior));
      var idx := KeptPositions(allowed, prior);
      forall k | 0 <= k < |idx| ensures idx[k] < n {
        assert idx[k] < |prior|;
      }
    }
  }

  /** The filter's output is a subsequence of its input. */
  lemma FilterLinesIsSubsequence(allowed: seq<string>, lines: seq<string>)
    ensures IsSubsequence(FilterLines(allowed, lines), lines)
  {
    FilterLinesAreKeptLines(allowed, lines);
  }

  /** `+++ ` line `j` is the one in force at position `i`: it comes before
      `i` and no later line before `i` starts a file or names a new path. */
  predicate NewPathInForce(lines: seq<string>, i: nat, j: nat) {
    && j < i <= |lines|
    && IsNewPath(lines[j])
    && forall k :: j < k < i ==> !IsNewPath(lines[k]) && !IsFileStart(lines[k])
  }

  /** The current file is relevant at position `i` exactly when the `+++ `
      line in force there has an allowed extension. */
  lemma {:induction false} RelevanceIsLastNewPath(allowed: seq<string>, lines: seq<string>, i: nat)
    requires i <= |lines|
    ensures RelevanceAfter(allowed, lines[..i])
        <==> exists j: nat :: NewPathInForce(lines, i, j) && Extension(lines[j]) in allowed
  {
    if i > 0 {
      RelevanceIsLastNewPath(allowed, lines, i - 1);
      assert lines[..i][..i - 1] == lines[..i - 1];
      var x := lines[i - 1];
      NewPathIsNoFileStart(x);
      if IsNewPath(x) {
        assert NewPathInForce(lines, i, i - 1);
        forall j: nat | NewPathInForce(lines, i, j) ensures j == i - 1 { }
      } else if IsFileStart(x) {
        forall j: nat | NewPathInForce(lines, i, j) ensures false {
        }
      } else {
        forall j: nat ensures NewPathInForce(lines, i, j) <==> NewPathInForce(lines, i - 1, j) {
          if NewPathInForce(lines, i, j) { assert j != i - 1; }
        }
      }
    }
  }

  /** The three rules of the filter: file boundaries and headers are always
      kept (a boundary clearing the relevance flag), and any other line is
      kept exactly when the `+++ ` line in force has an allowed extension. */
  lemma KeptLines(allowed: seq<string>, lines: seq<string>, i: nat)
    requires i < |lines|
    ensures IsFileStart(lines[i]) ==> Kept(allowed, lines, i) && !RelevanceAfter(allowed, lines[..i + 1])
    ensures IsHeader(lines[i]) ==> Kept(allowed, lines, i)
    ensures !IsFileStart(lines[i]) && !IsHeader(lines[i]) ==>
              (Kept(allowed, lines, i)
               <==> exists j: nat :: NewPathInForce(lines, i, j) && Extension(lines[j]) in allowed)
  {
    NewPathIsNoFileStart(lines[i]);
    assert lines[..i + 1][..i] == lines[..i];
    RelevanceIsLastNewPath(allowed, lines, i);
  }

  lemma RelevanceSnoc(allowed: seq<string>, xs: seq<string>, x: string)
    ensures RelevanceAfter(allowed, xs + [x]) == Step(allowed, RelevanceAfter(allowed, xs), x)
  {
    assert (xs + [x])[..|xs|] == xs;
  }

  lemma FilterSnoc(allowed: seq<string>, xs: seq<string>, x: string)
    ensures FilterLines(allowed, xs + [x])
            == FilterLines(allowed, xs) + (if Keeps(allowed, RelevanceAfter(allowed, xs), x) then [x] else [])
  {
    assert (xs + [x])[..|xs|] == xs;
  }

  /** A line the filter drops does not change the relevance. */
  lemma DroppedLineKeepsRelevance(allowed: seq<string>, relevant: bool, line: string)
    requires !Keeps(allowed, relevant, line)
    ensures Step(allowed, relevant, line) == relevant
  {
  }

  /** Relevance only depends on boundary and `+++ ` lines, which the filter
      always keeps. */
  lemma {:induction false} FilterKeepsRelevance(allowed: seq<string>, lines: seq<string>)
    ensures RelevanceAfter(allowed, FilterLines(allowed, lines)) == RelevanceAfter(allowed, lines)
    decreases |lines|
  {
    if lines != [] {
      var prior := lines[..|lines| - 1];
      var last := lines[|lines| - 1];
      assert lines == prior + [last];
      FilterKeepsRelevance(allowed, prior);
      FilterSnoc(allowed, prior, last);
      RelevanceSnoc(allowed, prior, last);
      var f := FilterLines(allowed, prior);
      var rel := RelevanceAfter(allowed, prior);
      if Keeps(allowed, rel, last) {
        RelevanceSnoc(allowed, f, last);
      } else {
        DroppedLineKeepsRelevance(allowed, rel, last);
        assert FilterLines(allowed, lines) == f + [] == f;
        assert RelevanceAfter(allowed, lines) == rel;
      }
    }
  }

  /** Filtering the kept lines again keeps all of them. */
  lemma {:induction false} FilterLinesIsIdempotent(allowed: seq<string>, lines: seq<string>)
    ensures FilterLines(allowed, FilterLines(allowed, lines)) == FilterLines(allowed, lines)
    decreases |lines|
  {
    if lines != [] {
      var prior := lines[..|lines| - 1];
      var last := lines[|lines| - 1];
      FilterLinesIsIdempotent(allowed, prior);
      FilterKeepsRelevance(allowed, prior);
      var f := FilterLines(allowed, prior);
      var rel := RelevanceAfter(allowed, prior);
      if Keeps(allowed, rel, last) {
        assert FilterLines(allowed, lines) == f + [last];
        assert (f + [last])[..|f|] == f;
        assert FilterLines(allowed, f + [last])
            == FilterLines(allowed, f) + (if Keeps(allowed, RelevanceAfter(allowed, f), last) then [last] else []);
      } else {
        assert FilterLines(allowed, lines) == f;
      }
    }
  }

  /** Every entry the code compares against carries a leading `.`, so an
      allow-list written without dots (`py` rather than `.py`) makes every
      file irrelevant: only boundaries and headers survive. */
  lemma {:induction false} UndottedAllowListKeepsOnlyHeaders(allowed: seq<string>, lines: seq<string>, i: nat)
    requires forall e :: e in allowed ==> !StartsWith(e, ".")
    requires i < |lines|
    ensures Kept(allowed, lines, i) <==> IsFileStart(lines[i]) || IsHeader(lines[i])
  {
    NeverRelevant(allowed, lines[..i]);
  }

  lemma {:induction false} NeverRelevant(allowed: seq<string>, lines: seq<string>)
    requires forall e :: e in allowed ==> !StartsWith(e, ".")
    ensures !RelevanceAfter(allowed, lines)
    decreases |lines|
  {
    if lines != [] {
      NeverRelevant(allowed, lines[..|lines| - 1]);
      var last := lines[|lines| - 1];
      if IsNewPath(last) {
        var e := Extension(last);
        assert StartsWith(e, ".");
      }
    }
  }

  /** Every kept line is a line of the input. */
  lemma {:induction false} FilterLinesFromInput(allowed: seq<string>, lines: seq<string>)
    ensures forall k :: 0 <= k < |FilterLines(allowed, lines)| ==> FilterLines(allowed, lines)[k] in lines
  {
    FilterLinesAreKeptLines(allowed, lines);
    var f, idx := FilterLines(allowed, lines), KeptPositions(allowed, lines);
    forall k | 0 <= k < |f| ensures f[k] in lines {
      assert f[k] == lines[idx[k]];
    }
  }

  /** On the text, filtering twice gives what filtering once gives as long
      as the last kept line is not empty: re-splitting the joined lines only
      loses a final empty line. */
  lemma FilterTextIsIdempotent(allowed: Option<seq<string>>, diff: string)
    requires allowed.Some? && allowed.value != [] ==>
               var f := FilterLines(allowed.value, SplitLines(diff));
               f == [] || f[|f| - 1] != []
    ensures FilterText(allowed, FilterText(allowed, diff)) == FilterText(allowed, diff)
  {
    if allowed.Some? && allowed.value != [] {
      var f := FilterLines(allowed.value, SplitLines(diff));
      FilterLinesFromInput(allowed.value, SplitLines(diff));
      SplitJoin(f);
      FilterLinesIsIdempotent(allowed.value, SplitLines(diff));
    }
  }

  /** When the last kept line is empty, a second pass drops it: a diff
      that ends in a relevant `+++ ` line and then an empty line (such as
      `"+++ b/a.py\n\n"` with `.py` allowed) loses its last line feed on
      the first pass and the line feed before it on the second. */
  lemma FilterTextDropsTrailingEmptyLine(allowed: seq<string>, line: string)
    requires IsNewPath(line) && '\n' !in line && Extension(line) in allowed
    ensures FilterText(Some(allowed), line + "\n\n") == line + "\n"
    ensures FilterText(Some(allowed), FilterText(Some(allowed), line + "\n\n")) == line
  {
    SplitLineAndEmptyLine(line);
    RelevantPathThenEmptyLine(allowed, line);
    JoinLineAndEmptyLine(line);
    assert FilterText(Some(allowed), line + "\n\n") == Join("\n", FilterLines(allowed, [line, ""]));
    assert FilterText(Some(allowed), line + "\n") == Join("\n", FilterLines(allowed, [line]));
  }

  lemma SplitLineAndEmptyLine(line: string)
    requires '\n' !in line
    ensures SplitLines(line + "\n\n") == [line, ""]
    ensures SplitLines(line + "\n") == [line]
  {
    var one, two := line + "\n", line + "\n\n";
    assert one == line + "\n" + [];
    assert two == line + "\n" + "\n";
    SplitLinesCons(line, []);
    SplitLinesCons(line, "\n");
    SplitLineFeed();
  }

  lemma SplitLineFeed()
    ensures SplitLines("\n") == [""]
  {
    SplitLinesCons([], []);
    assert [] + "\n" + [] == "\n";
  }

  lemma JoinLineAndEmptyLine(line: string)
    ensures Join("\n", [line, ""]) == line + "\n"
    ensures Join("\n", [line]) == line
  {
    assert [line, ""][1..] == [""];
    assert line + "\n" + "" == line + "\n";
  }

  /** A relevant `+++ ` line is kept, and so is an empty line after it. */
  lemma RelevantPathThenEmptyLine(allowed: seq<string>, line: string)
    requires IsNewPath(line) && Extension(line) in allowed
    ensures FilterLines(allowed, [line]) == [line]
    ensures FilterLines(allowed, [line, ""]) == [line, ""]
    ensures RelevanceAfter(allowed, [line])
  {
    NewPathIsNoFileStart(line);
    FilterSnoc(allowed, [], line);
    RelevanceSnoc(allowed, [], line);
    assert [] + [line] == [line];
    FilterSnoc(allowed, [line], "");
    assert [line] + [""] == [line, ""];
  }

  /** For a `+++ ` line whose path `front.ext` has no whitespace at either
      end and no `.` in `ext`, the compared extension is `.` followed by
      `ext` lower-cased (`+++ b/a.PY` compares `.py`). */
  lemma ExtensionAfterLastDot(front: string, ext: string)
    requires front == [] || !IsSpace(front[0])
    requires ext == [] || !IsSpace(ext[|ext| - 1])
    requires '.' !in ext
    ensures IsNewPath("+++ " + (front + "." + ext))
    ensures Extension("+++ " + (front + "." + ext)) == "." + Lower(ext)
  {
    var path := front + "." + ext;
    var line := "+++ " + path;
    assert line[..4] == "+++ " && line[4..] == path;
    DottedPathIsStripped(front, ext);
    AfterLastDotOfDotted(front, ext);
  }

  lemma DottedPathIsStripped(front: string, ext: string)
    requires front == [] || !IsSpace(front[0])
    requires ext == [] || !IsSpace(ext[|ext| - 1])
    ensures Strip(front + "." + ext) == front + "." + ext
  {
    var path := front + "." + ext;
    assert path[0] == (if front == [] then '.' else front[0]);
    assert path[|path| - 1] == (if ext == [] then '.' else ext[|ext| - 1]);
    StripOfUnpadded(path);
  }

  lemma AfterLastDotOfDotted(front: string, ext: string)
    requires '.' !in ext
    ensures AfterLast(front + "." + ext, '.') == ext
  {
    assert front + "." + ext == (front + ".") + ext;
    AfterLastOfTail(front + ".", ext, '.');
  }

  /** A line ended by a line feed is split off whole. */
  lemma SplitLinesCons(line: string, rest: string)
    requires '\n' !in line
    ensures SplitLines(line + "\n" + rest) == [line] + SplitLines(rest)
  {
    var s := line + "\n" + rest;
    assert s[|line|] == '\n';
    forall i | 0 <= i < |line| ensures s[i] != '\n' {
      assert s[i] == line[i];
    }
    assert LineEnd(s) == |line|;
    assert s[..|line|] == line;
    assert s[|line| + 1..] == rest;
  }

  // ---------------------------------------------------------------------
  // The prompt

  /** Python truthiness of an optional string. */
  predicate Truthy(s: Option<string>) {
    s.Some? && s.value != []
  }

  /** `_build_review_prompt`: the backlog template with `issue_key` and
      `code_diff` when the issue key is truthy, else the generic template
      with `code_diff` alone. */
  function BuildReviewPrompt(g: GeminiReviewer, codeDiff: string, issueKey: Option<string>): (r: Result<string, Failure>)
    ensures r.Err? ==> r.error.KeyError?
  {
    var formatted :=
      if Truthy(issueKey) then Format(g.backlogTemplate, map["issue_key" := issueKey.value, "code_diff" := codeDiff])
      else Format(g.genericTemplate, map["code_diff" := codeDiff]);
    if formatted.Err? then Err(KeyError(formatted.error)) else Ok(formatted.value)
  }

  /** The template chosen, and the values it is filled with. */
  function ChosenTemplate(g: GeminiReviewer, issueKey: Option<string>): Template {
    if Truthy(issueKey) then g.backlogTemplate else g.genericTemplate
  }

  function PromptValues(codeDiff: string, issueKey: Option<string>): map<string, string> {
    if Truthy(issueKey) then map["issue_key" := issueKey.value, "code_diff" := codeDiff]
    else map["code_diff" := codeDiff]
  }

  /** A prompt is built exactly when every placeholder of the chosen
      template has a value; the generic template may only name `code_diff`,
      and the diff is inserted verbatim where the template names it. */
  lemma PromptFromTemplate(g: GeminiReviewer, codeDiff: string, issueKey: Option<string>, k: nat)
    ensures var t := ChosenTemplate(g, issueKey);
            BuildReviewPrompt(g, codeDiff, issueKey).Ok?
            <==> forall k' :: 0 <= k' < |t| && t[k'].Placeholder? ==>
                   t[k'].name == "code_diff" || (Truthy(issueKey) && t[k'].name == "issue_key")
    ensures var t := ChosenTemplate(g, issueKey);
            var values := PromptValues(codeDiff, issueKey);
            var r := BuildReviewPrompt(g, codeDiff, issueKey);
            k < |t| && t[k] == Placeholder("code_diff") && r.Ok? ==>
              r.value == Format(t[..k], values).value + codeDiff + Format(t[k + 1..], values).value
  {
    var t := ChosenTemplate(g, issueKey);
    var values := PromptValues(codeDiff, issueKey);
    assert BuildReviewPrompt(g, codeDiff, issueKey).Ok? <==> Format(t, values).Ok?;
    if k < |t| && t[k] == Placeholder("code_diff") && Format(t, values).Ok? {
      FormatAroundPlaceholder(t, values, k);
    }
  }

  // ---------------------------------------------------------------------
  // The review

  /** What `generate_content` gives back: a response with its text and the
      prompt feedback's block reason (by name, absent when unset), or the
      message of an exception it raised. */
  datatype ModelReply = Reply(text: string, blockReason: Option<string>) | Raised(message: string)

  /** The body of `review_code`'s `try` after the call: an empty text is an
      error naming the block reason if there is one; otherwise the stripped
      text is the review. */
  function ReadReply(reply: ModelReply): (r: Result<string, GeminiCause>)
    ensures r.Ok? <==> reply.Reply? && reply.text != []
    ensures r.Ok? ==> r.value == Strip(reply.text)
    ensures reply.Raised? ==> r == Err(ApiFailure(reply.message))
    ensures reply.Reply? && reply.text == [] ==>
              r == Err(if reply.blockReason.Some? then Blocked(reply.blockReason.value) else EmptyReview)
  {
    match reply
    case Raised(m) => Err(ApiFailure(m))
    case Reply(text, reason) =>
      if text == [] then
        (if reason.Some? then Err(Blocked(reason.value)) else Err(EmptyReview))
      else Ok(Strip(text))
  }

  /** What `review_code` returns, and the prompts it sends. */
  datatype Reviewed = Reviewed(result: Result<string, Failure>, sent: seq<string>)

  function Review(g: GeminiReviewer, codeDiff: string, issueKey: Option<string>,
                  model: (string, string) -> ModelReply): (r: Reviewed)
    ensures IsBlank(FilterText(g.allowedExtensions, codeDiff)) ==> r == Reviewed(Ok([]), [])
    ensures |r.sent| <= 1
    ensures r.sent == [] && r.result.Ok? ==> r.result.value == []
    ensures r.sent != [] ==>
              && BuildReviewPrompt(g, FilterText(g.allowedExtensions, codeDiff), issueKey) == Ok(r.sent[0])
              && (r.result.Err? ==> r.result.error.GeminiReviewerError?)
  {
    var filtered := FilterText(g.allowedExtensions, codeDiff);
    var prompt := BuildReviewPrompt(g, filtered, issueKey);
    if IsBlank(filtered) then Reviewed(Ok([]), [])
    else if prompt.Err? then Reviewed(Err(prompt.error), [])
    else
      var read := ReadReply(model(g.modelName, prompt.value));
      Reviewed(if read.Ok? then Ok(read.value) else Err(GeminiReviewerError(read.error)), [prompt.value])
  }

  /** `review_code`. `model` stands for the generative model service; the
      prompts it was sent are returned beside the result. */
  method ReviewCode(g: GeminiReviewer, codeDiff: string, issueKey: Option<string>,
                    model: (string, string) -> ModelReply)
    returns (r: Result<string, Failure>, prompts: seq<string>)
    ensures var filtered := FilterText(g.allowedExtensions, codeDiff);
            IsBlank(filtered) ==> r == Ok([]) && prompts == []
    ensures var filtered := FilterText(g.allowedExtensions, codeDiff);
            var prompt := BuildReviewPrompt(g, filtered, issueKey);
            !IsBlank(filtered) && prompt.Err? ==> r == prompt && prompts == []
    ensures var filtered := FilterText(g.allowedExtensions, codeDiff);
            var prompt := BuildReviewPrompt(g, filtered, issueKey);
            !IsBlank(filtered) && prompt.Ok? ==>
              && prompts == [prompt.value]
              && var read := ReadReply(model(g.modelName, prompt.value));
                 r == if read.Ok? then Ok(read.value) else Err(GeminiReviewerError(read.error))
    ensures r.Ok? ==> r.value == [] || (!IsSpace(r.value[0]) && !IsSpace(r.value[|r.value| - 1]))
    ensures Reviewed(r, prompts) == Review(g, codeDiff, issueKey, model)
  {
    var filtered := FilterDiffByExtensions(g, codeDiff);
    if IsBlank(filtered) {
      return Ok([]), [];
    }
    var prompt := BuildReviewPrompt(g, filtered, issueKey);
    if prompt.Err? {
      return prompt, [];
    }
    prompts := [prompt.value];
    var reply := model(g.modelName, prompt.value);
    if reply.Reply? {
      StripCuts(reply.text);
    }
    var read := ReadReply(reply);
    if read.Err? {
      r := Err(GeminiReviewerError(read.error));
    } else {
      r := Ok(read.value);
    }
  }
}
