/** The few pieces of Python's `str` behaviour the reviewer relies on:
    whitespace, `strip`, `startswith`, `in` on strings, `lower`,
    `rpartition('.')`, `"\n".join` and `splitlines`. */
module Text {

  /** Python's `str.isspace`: the characters `str.strip()` removes. */
  predicate IsSpace(c: char) {
    ('\t' <= c <= '\r') || ('\U{1C}' <= c <= ' ') || c == '\U{85}' || c == '\U{A0}'
    || c == '\U{1680}' || ('\U{2000}' <= c <= '\U{200A}') || c == '\U{2028}' || c == '\U{2029}'
    || c == '\U{202F}' || c == '\U{205F}' || c == '\U{3000}'
  }

  function TrimLeft(s: string): string {
    if s == [] || !IsSpace(s[0]) then s else TrimLeft(s[1..])
  }

  function TrimRight(s: string): string {
    if s == [] || !IsSpace(s[|s| - 1]) then s else TrimRight(s[..|s| - 1])
  }

  /** `lstrip` removes a whitespace prefix and stops at the first other
      character. */
  lemma {:induction false} TrimLeftCuts(s: string)
    ensures var r := TrimLeft(s);
            |r| <= |s| && r == s[|s| - |r|..]
            && (r == [] || !IsSpace(r[0]))
            && forall i :: 0 <= i < |s| - |r| ==> IsSpace(s[i])
  {
    if s != [] && IsSpace(s[0]) {
      var t := s[1..];
      TrimLeftCuts(t);
      var r := TrimLeft(t);
      assert TrimLeft(s) == r;
      assert t[|t| - |r|..] == s[|s| - |r|..];
      forall i | 0 <= i < |s| - |r| ensures IsSpace(s[i]) {
        if i > 0 {
          assert s[i] == t[i - 1];
        }
      }
    }
  }

  /** `rstrip` removes a whitespace suffix and stops at the last other
      character. */
  lemma {:induction false} TrimRightCuts(s: string)
    ensures var r := TrimRight(s);
            |r| <= |s| && r == s[..|r|]
            && (r == [] || !IsSpace(r[|r| - 1]))
            && forall i :: |r| <= i < |s| ==> IsSpace(s[i])
  {
    if s != [] && IsSpace(s[|s| - 1]) {
      TrimRightCuts(s[..|s| - 1]);
    }
  }

  /** `r` is the slice of `s` starting at `i`, and everything of `s` outside
      that slice is whitespace. */
  predicate CutAt(s: string, r: string, i: int) {
    0 <= i <= |s| - |r| && r == s[i..i + |r|]
    && (forall k :: 0 <= k < i ==> IsSpace(s[k]))
    && (forall k :: i + |r| <= k < |s| ==> IsSpace(s[k]))
  }

  /** `s.strip()`: a contiguous slice of `s`, everything cut away is
      whitespace, and the slice neither starts nor ends with whitespace. */
  function Strip(s: string): string {
    TrimRight(TrimLeft(s))
  }

  /** A prefix of a suffix is a slice. */
  lemma PrefixOfSuffix(s: string, i: int, n: int)
    requires 0 <= i <= |s| && 0 <= n <= |s| - i
    ensures s[i..][..n] == s[i..i + n]
  {
  }

  /** The slice `strip` keeps starts where `lstrip` stopped. */
  lemma StripCutsAt(s: string) returns (i: int)
    ensures CutAt(s, Strip(s), i)
  {
    var l := TrimLeft(s);
    var r := TrimRight(l);
    TrimLeftCuts(s);
    TrimRightCuts(l);
    i := |s| - |l|;
    assert l == s[i..];
    PrefixOfSuffix(s, i, |r|);
    assert r == s[i..i + |r|];
    SpaceAfterSlice(s, i, |r|);
  }

  /** Whitespace at the end of a suffix is whitespace at the end of the string. */
  lemma SpaceAfterSlice(s: string, i: int, n: int)
    requires 0 <= i <= |s| && 0 <= n <= |s| - i
    requires forall k :: n <= k < |s[i..]| ==> IsSpace(s[i..][k])
    ensures forall k :: i + n <= k < |s| ==> IsSpace(s[k])
  {
    forall k | i + n <= k < |s| ensures IsSpace(s[k]) {
      assert s[k] == s[i..][k - i];
    }
  }

  /** `strip` leaves no whitespace at either end. */
  lemma StripUnpadded(s: string)
    ensures var r := Strip(s); r == [] || (!IsSpace(r[0]) && !IsSpace(r[|r| - 1]))
  {
    var l := TrimLeft(s);
    TrimLeftCuts(s);
    TrimRightCuts(l);
    var r := TrimRight(l);
    if r != [] {
      assert r[0] == l[0];
    }
  }

  lemma StripCuts(s: string)
    ensures exists i :: CutAt(s, Strip(s), i)
    ensures var r := Strip(s); r == [] || (!IsSpace(r[0]) && !IsSpace(r[|r| - 1]))
  {
    var i := StripCutsAt(s);
    StripUnpadded(s);
  }

  /** A string that neither starts nor ends with whitespace is its own
      `strip`. */
  lemma StripOfUnpadded(s: string)
    requires s != [] && !IsSpace(s[0]) && !IsSpace(s[|s| - 1])
    ensures Strip(s) == s
  {
    assert TrimLeft(s) == s;
  }

  /** `not s.strip()`: the string is empty or all whitespace. */
  predicate IsBlank(s: string) {
    Strip(s) == []
  }

  lemma BlankIffAllSpace(s: string)
    ensures IsBlank(s) <==> forall k :: 0 <= k < |s| ==> IsSpace(s[k])
  {
    StripCuts(s);
    if !IsBlank(s) {
      var r := Strip(s);
      var i :| CutAt(s, r, i);
      assert s[i] == r[0] && !IsSpace(s[i]);
    }
  }

  lemma StripIsIdempotent(s: string)
    ensures Strip(Strip(s)) == Strip(s)
  {
    StripCuts(s);
  }

  predicate StartsWith(s: string, prefix: string) {
    |prefix| <= |s| && s[..|prefix|] == prefix
  }

  /** `sub` occurs in `s` at index `i`. */
  predicate OccursAt(s: string, sub: string, i: int) {
    0 <= i <= |s| - |sub| && s[i..i + |sub|] == sub
  }

  /** Python's `sub in s`. */
  predicate Contains(s: string, sub: string)
    decreases |s|
  {
    StartsWith(s, sub) || (s != [] && Contains(s[1..], sub))
  }

  /** An occurrence past the first character is an occurrence in the tail. */
  lemma OccursInTail(s: string, sub: string, i: int)
    requires 0 < i && OccursAt(s, sub, i)
    ensures OccursAt(s[1..], sub, i - 1)
  {
    assert s[1..][i - 1..i - 1 + |sub|] == s[i..i + |sub|];
  }

  /** An occurrence in the tail is an occurrence one further on. */
  lemma OccursAfterHead(s: string, sub: string, i: int)
    requires s != [] && OccursAt(s[1..], sub, i)
    ensures OccursAt(s, sub, i + 1)
  {
    assert s[i + 1..i + 1 + |sub|] == s[1..][i..i + |sub|];
  }

  /** Where `sub in s` finds `sub`. */
  lemma {:induction false} ContainsWitness(s: string, sub: string) returns (i: int)
    requires Contains(s, sub)
    ensures OccursAt(s, sub, i)
    decreases |s|
  {
    if StartsWith(s, sub) {
      i := 0;
    } else {
      var j := ContainsWitness(s[1..], sub);
      OccursAfterHead(s, sub, j);
      i := j + 1;
    }
  }

  /** `sub in s` finds every occurrence. */
  lemma {:induction false} OccursContains(s: string, sub: string, i: int)
    requires OccursAt(s, sub, i)
    ensures Contains(s, sub)
    decreases i
  {
    if i > 0 {
      OccursInTail(s, sub, i);
      OccursContains(s[1..], sub, i - 1);
    }
  }

  lemma ContainsIffOccurs(s: string, sub: string)
    ensures Contains(s, sub) <==> exists i :: OccursAt(s, sub, i)
  {
    if Contains(s, sub) {
      var i := ContainsWitness(s, sub);
    }
    if exists i :: OccursAt(s, sub, i) {
      var i :| OccursAt(s, sub, i);
      OccursContains(s, sub, i);
    }
  }

  /** `str.lower` on the ASCII letters. */
  function LowerChar(c: char): char {
    if 'A' <= c <= 'Z' then (c as int + 32) as char else c
  }

  function Lower(s: string): string {
    if s == [] then [] else [LowerChar(s[0])] + Lower(s[1..])
  }

  lemma {:induction false} LowerPointwise(s: string)
    ensures |Lower(s)| == |s|
    ensures forall i :: 0 <= i < |s| ==> Lower(s)[i] == LowerChar(s[i])
  {
    if s != [] {
      LowerPointwise(s[1..]);
    }
  }

  /** The third part of `s.rpartition(c)`: what follows the last `c`, or the
      whole of `s` when `c` does not occur. */
  function AfterLast(s: string, c: char): string {
    if s == [] then []
    else if s[|s| - 1] == c then []
    else AfterLast(s[..|s| - 1], c) + [s[|s| - 1]]
  }

  /** What `AfterLast` returns is a suffix of `s` free of `c`, preceded in
      `s` by a `c` unless it is all of `s`. */
  lemma {:induction false} AfterLastIsSuffix(s: string, c: char)
    ensures var r := AfterLast(s, c);
            |r| <= |s| && r == s[|s| - |r|..]
            && (forall k :: |s| - |r| <= k < |s| ==> s[k] != c)
            && (|r| < |s| ==> s[|s| - |r| - 1] == c)
  {
    if s != [] && s[|s| - 1] != c {
      AfterLastIsSuffix(s[..|s| - 1], c);
    }
  }

  /** After a `c`, a tail free of `c` is exactly what `AfterLast` returns. */
  lemma {:induction false} AfterLastOfTail(front: string, tail: string, c: char)
    requires front != [] && front[|front| - 1] == c && c !in tail
    ensures AfterLast(front + tail, c) == tail
    decreases |tail|
  {
    if tail == [] {
      assert front + tail == front;
    } else {
      var s := front + tail;
      var init := tail[..|tail| - 1];
      assert s[..|s| - 1] == front + init;
      assert c !in init by {
        assert forall k :: 0 <= k < |init| ==> init[k] == tail[k];
      }
      assert s[|s| - 1] == tail[|tail| - 1] && tail[|tail| - 1] in tail;
      AfterLastOfTail(front, init, c);
      assert init + [tail[|tail| - 1]] == tail;
    }
  }

  /** `sep.join(parts)`. */
  function Join(sep: string, parts: seq<string>): string {
    if parts == [] then []
    else if |parts| == 1 then parts[0]
    else parts[0] + sep + Join(sep, parts[1..])
  }

  /** Index of the first line feed of `s`, or `|s|` when there is none. */
  function LineEnd(s: string): (k: nat)
    ensures k <= |s|
    ensures forall i :: 0 <= i < k ==> s[i] != '\n'
    ensures k < |s| ==> s[k] == '\n'
  {
    if s == [] || s[0] == '\n' then 0 else 1 + LineEnd(s[1..])
  }

  /** `s.splitlines()` with the line feed as the only line boundary: a final
      line feed does not start a further, empty line. */
  function SplitLines(s: string): (lines: seq<string>)
    ensures forall i :: 0 <= i < |lines| ==> '\n' !in lines[i]
    decreases |s|
  {
    if s == [] then []
    else
      var k := LineEnd(s);
      if k == |s| then [s] else [s[..k]] + SplitLines(s[k + 1..])
  }

  predicate NoLineFeeds(lines: seq<string>) {
    forall i :: 0 <= i < |lines| ==> '\n' !in lines[i]
  }

  /** Splitting a joined sequence of lines gives the lines back, provided no
      line holds a line feed and the last line is not empty. */
  lemma {:induction false} SplitJoin(lines: seq<string>)
    requires NoLineFeeds(lines)
    requires lines == [] || lines[|lines| - 1] != []
    ensures SplitLines(Join("\n", lines)) == lines
  {
    if |lines| == 1 {
      var s := lines[0];
      assert LineEnd(s) == |s|;
    } else if |lines| > 1 {
      var x, rest := lines[0], lines[1..];
      var s := x + "\n" + Join("\n", rest);
      assert LineEnd(s) == |x| by {
        assert s[|x|] == '\n';
        assert forall i :: 0 <= i < |x| ==> s[i] == x[i];
      }
      assert s[..|x|] == x;
      assert s[|x| + 1..] == Join("\n", rest);
      SplitJoin(rest);
    }
  }
}

/** Subsequences, stated by the positions the elements are taken from. */
module Subsequence {

  /** `idx` lists, in strictly increasing order, positions of `b` whose
      elements are, one by one, the elements of `a`. */
  ghost predicate Embeds<T>(a: seq<T>, b: seq<T>, idx: seq<nat>) {
    && |idx| == |a|
    && (forall k :: 0 <= k < |idx| ==> idx[k] < |b| && a[k] == b[idx[k]])
    && (forall k, l :: 0 <= k < l < |idx| ==> idx[k] < idx[l])
  }

  /** `a` is `b` with some elements deleted: same order, nothing repeated. */
  ghost predicate IsSubsequence<T>(a: seq<T>, b: seq<T>) {
    exists idx :: Embeds(a, b, idx)
  }

  function Shift(idx: seq<nat>): (r: seq<nat>)
    ensures |r| == |idx| && forall k :: 0 <= k < |idx| ==> r[k] == idx[k] + 1
  {
    seq(|idx|, k requires 0 <= k < |idx| => idx[k] + 1)
  }

  /** An embedding into the tail of `b` is one into `b`, with or without
      `b`'s first element in front. */
  lemma EmbedsCons<T>(a: seq<T>, b: seq<T>, idx: seq<nat>)
    requires b != [] && Embeds(a, b[1..], idx)
    ensures Embeds(a, b, Shift(idx))
    ensures Embeds([b[0]] + a, b, [0] + Shift(idx))
  {
  }

  /** An embedding into a prefix of `b` extends by `b`'s last element. */
  lemma EmbedsSnoc<T>(a: seq<T>, b: seq<T>, idx: seq<nat>)
    requires b != [] && Embeds(a, b[..|b| - 1], idx)
    ensures Embeds(a, b, idx)
    ensures Embeds(a + [b[|b| - 1]], b, idx + [|b| - 1])
  {
  }
}
