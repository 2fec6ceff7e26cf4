/** `core/string_utils.py`: removing the control characters the issue
    tracker may refuse, before a review is posted as a comment. */
module StringUtils {
  import opened Subsequence

  /** What `sanitize_string` may be handed: `None`, a string, or any other
      object. */
  datatype Value = NoneValue | Str(s: string) | NonString

  /** `_is_valid_text`. */
  predicate IsValidText(v: Value) {
    v.Str?
  }

  /** The character class of `_CONTROL_CHAR_REGEX`: U+0000-U+0008, U+000B,
      U+000C, U+000E-U+001F and U+007F-U+009F. Tab, line feed and carriage
      return are outside it. */
  predicate IsControlChar(c: char) {
    var n := c as int;
    (0 <= n <= 0x08) || n == 0x0B || n == 0x0C || (0x0E <= n <= 0x1F) || (0x7F <= n <= 0x9F)
  }

  lemma TabAndLineBreaksAreKept()
    ensures !IsControlChar('\t') && !IsControlChar('\n') && !IsControlChar('\r')
  {
  }

  /** `_CONTROL_CHAR_REGEX.sub('', s)`. */
  function RemoveControlChars(s: string): (r: string)
    ensures |r| <= |s|
    ensures forall i :: 0 <= i < |r| ==> !IsControlChar(r[i])
  {
    if s == [] then []
    else (if IsControlChar(s[0]) then [] else [s[0]]) + RemoveControlChars(s[1..])
  }

  /** `sanitize_string`. */
  function Sanitize(v: Value): (r: string)
    ensures !IsValidText(v) ==> r == []
    ensures forall i :: 0 <= i < |r| ==> !IsControlChar(r[i])
  {
    if !IsValidText(v) then [] else RemoveControlChars(v.s)
  }

  /** Every character that is not a control character occurs in the output
      exactly as often as in the input; control characters not at all. */
  lemma {:induction false} RemoveControlCharsCounts(s: string, c: char)
    ensures multiset(RemoveControlChars(s))[c] == if IsControlChar(c) then 0 else multiset(s)[c]
  {
    if s != [] {
      RemoveControlCharsCounts(s[1..], c);
      assert s == [s[0]] + s[1..];
    }
  }

  /** The output keeps the order of the characters it keeps. */
  lemma {:induction false} RemoveControlCharsIsSubsequence(s: string)
    ensures IsSubsequence(RemoveControlChars(s), s)
  {
    if s == [] {
      assert Embeds(RemoveControlChars(s), s, []);
    } else {
      RemoveControlCharsIsSubsequence(s[1..]);
      var tail := RemoveControlChars(s[1..]);
      var idx :| Embeds(tail, s[1..], idx);
      EmbedsCons(tail, s, idx);
      if IsControlChar(s[0]) {
        assert Embeds(RemoveControlChars(s), s, Shift(idx));
      } else {
        assert Embeds(RemoveControlChars(s), s, [0] + Shift(idx));
      }
    }
  }

  lemma {:induction false} RemoveControlCharsIsIdempotent(s: string)
    ensures RemoveControlChars(RemoveControlChars(s)) == RemoveControlChars(s)
  {
    if s != [] {
      RemoveControlCharsIsIdempotent(s[1..]);
      var tail := RemoveControlChars(s[1..]);
      if IsControlChar(s[0]) {
        assert RemoveControlChars(s) == tail;
      } else {
        var r := [s[0]] + tail;
        assert RemoveControlChars(s) == r;
        assert r[1..] == tail;
        assert RemoveControlChars(r) == [s[0]] + RemoveControlChars(tail);
      }
    }
  }

  /** The output equals the input exactly when the input holds no control
      character. */
  lemma {:induction false} RemoveControlCharsUnchangedIff(s: string)
    ensures RemoveControlChars(s) == s <==> forall i :: 0 <= i < |s| ==> !IsControlChar(s[i])
  {
    if s != [] {
      RemoveControlCharsUnchangedIff(s[1..]);
      var tail := RemoveControlChars(s[1..]);
      if IsControlChar(s[0]) {
        assert |RemoveControlChars(s)| < |s|;
      } else {
        assert RemoveControlChars(s) == [s[0]] + tail;
        if RemoveControlChars(s) == s {
          assert tail == s[1..];
        }
        assert (forall i :: 0 <= i < |s| ==> !IsControlChar(s[i]))
           <==> (forall i :: 0 <= i < |s| - 1 ==> !IsControlChar(s[1..][i]));
      }
    }
  }

  lemma SanitizeIsIdempotent(v: Value)
    ensures Sanitize(Str(Sanitize(v))) == Sanitize(v)
  {
    if IsValidText(v) {
      RemoveControlCharsIsIdempotent(v.s);
    }
  }
}
