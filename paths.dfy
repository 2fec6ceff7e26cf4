/** The little of `pathlib` the reviewers use: `Path(url).stem` to name the
    working copy after the repository, and `/` to place it in the local
    directory. */
module Paths {
  import opened Text

  /** `PurePosixPath(s).name`: the last component, where empty components
      and `.` components do not count. */
  function Name(s: string): (r: string)
    ensures r != "." && |r| <= |s|
    ensures '/' !in s ==> r == (if s == "." then [] else s)
    decreases |s|
  {
    var last := AfterLast(s, '/');
    AfterLastIsSuffix(s, '/');
    if last != [] && last != "." then last
    else if |last| == |s| then []
    else Name(s[..|s| - |last| - 1])
  }

  /** `PurePath.stem` of a name: cut at the last `.` when that dot is neither
      the first nor the last character. */
  function StemOfName(name: string): (r: string)
    ensures |r| <= |name| && r == name[..|r|]
    ensures r != name ==> 0 < |r| < |name| - 1 && name[|r|] == '.' && '.' !in name[|r| + 1..]
  {
    var ext := AfterLast(name, '.');
    AfterLastIsSuffix(name, '.');
    var dot := |name| - |ext| - 1;
    if 0 < dot < |name| - 1 then
      assert name[dot + 1..] == ext;
      name[..dot]
    else name
  }

  /** `Path(url).stem`, the repository directory's name. */
  function RepoName(url: string): (r: string)
    ensures '/' !in r
  {
    NameHasNoSeparator(url);
    var name := Name(url);
    var stem := StemOfName(name);
    assert forall k :: 0 <= k < |stem| ==> stem[k] == name[k];
    stem
  }

  /** `base / name` for a base written without a trailing separator. */
  function JoinPath(base: string, name: string): (r: string)
    ensures name == [] ==> r == base
    ensures name != [] ==> |r| == |base| + 1 + |name| && r[..|base|] == base && r[|base|] == '/' && r[|base| + 1..] == name
  {
    if name == [] then base else base + "/" + name
  }

  lemma {:induction false} NameHasNoSeparator(s: string)
    ensures '/' !in Name(s)
    decreases |s|
  {
    var last := AfterLast(s, '/');
    AfterLastIsSuffix(s, '/');
    if last != [] && last != "." {
      assert forall k :: 0 <= k < |last| ==> last[k] == s[|s| - |last| + k];
    } else if |last| != |s| {
      NameHasNoSeparator(s[..|s| - |last| - 1]);
    }
  }

  /** A clone URL `…/<name>.git` (or `host:<owner>/<name>.git`) names the
      directory `<name>`. */
  lemma RepoNameOfGitUrl(prefix: string, name: string)
    requires name != [] && '/' !in name
    ensures RepoName(prefix + "/" + name + ".git") == name
  {
    var url := prefix + "/" + name + ".git";
    var file := name + ".git";
    assert url == (prefix + "/") + file;
    AfterLastOfTail(prefix + "/", file, '/');
    assert Name(url) == file;
    AfterLastDotIsGit(name);
    assert file[..|name|] == name;
  }

  lemma AfterLastDotIsGit(name: string)
    ensures AfterLast(name + ".git", '.') == "git"
  {
    var s := name + ".git";
    assert s[..|s| - 1] == name + ".gi";
    assert (name + ".gi")[..|s| - 2] == name + ".g";
    assert (name + ".g")[..|s| - 3] == name + ".";
    assert AfterLast(name + ".", '.') == [];
    assert AfterLast(name + ".g", '.') == "g";
    assert AfterLast(name + ".gi", '.') == "gi";
  }
}
