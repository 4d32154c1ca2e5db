/** The two JavaScript string built-ins that the component relies on:
    `String.prototype.trim` and `String.prototype.includes`. */
module Text {

  /** The code points that ECMAScript's `trim` removes: the WhiteSpace and
      LineTerminator productions of ECMA-262 (tab, vertical tab, form feed,
      space, no-break space, the byte order mark, the Unicode space
      separators, line feed, carriage return, line and paragraph separator). */
  predicate IsSpace(c: char) {
    c == '\t' || c == '\U{000B}' || c == '\U{000C}' || c == ' ' ||
    c == '\U{00A0}' || c == '\U{FEFF}' || c == '\U{1680}' ||
    ('\U{2000}' <= c <= '\U{200A}') || c == '\U{202F}' || c == '\U{205F}' ||
    c == '\U{3000}' ||
    c == '\n' || c == '\r' || c == '\U{2028}' || c == '\U{2029}'
  }

  /** Every character of `s` is white space. */
  predicate AllSpace(s: string) {
    forall k :: 0 <= k < |s| ==> IsSpace(s[k])
  }

  /** The number of white-space characters at the start of `s`. */
  function LeadingSpace(s: string): (n: nat)
    ensures n <= |s|
    ensures AllSpace(s[..n])
    ensures n < |s| ==> !IsSpace(s[n])
  {
    if |s| == 0 || !IsSpace(s[0]) then 0
    else
      var rest := LeadingSpace(s[1..]);
      assert s[..1 + rest] == [s[0]] + s[1..][..rest];
      1 + rest
  }

  /** The number of white-space characters at the end of `s`. */
  function TrailingSpace(s: string): (n: nat)
    ensures n <= |s|
    ensures AllSpace(s[|s| - n..])
    ensures n < |s| ==> !IsSpace(s[|s| - 1 - n])
  {
    if |s| == 0 || !IsSpace(s[|s| - 1]) then 0
    else
      var rest := TrailingSpace(s[..|s| - 1]);
      assert s[|s| - (1 + rest)..] == s[..|s| - 1][|s| - 1 - rest..] + [s[|s| - 1]];
      1 + rest
  }

  /** `s.trim()`: `s` without its leading and trailing white space. */
  function Trim(s: string): (r: string)
    ensures |r| <= |s|
  {
    var tail := s[LeadingSpace(s)..];
    tail[..|tail| - TrailingSpace(tail)]
  }

  /** Trimming keeps a contiguous run of `s` and removes only white space
      around it. */
  lemma TrimIsSlice(s: string)
    ensures exists i, j ::
      0 <= i <= j <= |s| && Trim(s) == s[i..j] && AllSpace(s[..i]) && AllSpace(s[j..])
  {
    var i := LeadingSpace(s);
    var tail := s[i..];
    var j := i + |tail| - TrailingSpace(tail);
    assert Trim(s) == s[i..j];
    assert s[j..] == tail[|tail| - TrailingSpace(tail)..];
  }

  /** A trimmed string neither starts nor ends with white space. */
  lemma TrimHasNoOuterSpace(s: string)
    ensures Trim(s) != "" ==> !IsSpace(Trim(s)[0]) && !IsSpace(Trim(s)[|Trim(s)| - 1])
  {
  }

  /** `s.trim()` is empty exactly when `s` is blank. */
  lemma TrimEmptyIffBlank(s: string)
    ensures Trim(s) == "" <==> AllSpace(s)
  {
  }

  /** Trimming twice is the same as trimming once. */
  lemma TrimIdempotent(s: string)
    ensures Trim(Trim(s)) == Trim(s)
  {
  }

  /** `needle` occurs in `s` starting at index `i`. */
  predicate OccursAt(s: string, needle: string, i: nat) {
    i + |needle| <= |s| && s[i..i + |needle|] == needle
  }

  /** `needle` occurs somewhere in `s`. */
  ghost predicate Occurs(s: string, needle: string) {
    exists i: nat :: OccursAt(s, needle, i)
  }

  /** `s.includes(needle)`, scanning `s` from the left. */
  function Includes(s: string, needle: string): (r: bool)
    ensures r ==> |needle| <= |s|
    ensures needle == [] ==> r
    decreases |s|
  {
    if |needle| > |s| then false
    else if s[..|needle|] == needle then true
    else Includes(s[1..], needle)
  }

  /** The scan agrees with the definition of an occurrence, in both directions. */
  lemma {:induction false} IncludesIffOccurs(s: string, needle: string)
    ensures Includes(s, needle) <==> Occurs(s, needle)
    decreases |s|
  {
    if |needle| > |s| {
      // no index leaves room for the needle
    } else if s[..|needle|] == needle {
      assert OccursAt(s, needle, 0);
    } else {
      IncludesIffOccurs(s[1..], needle);
      if Occurs(s[1..], needle) {
        var i: nat :| OccursAt(s[1..], needle, i);
        assert s[i + 1..i + 1 + |needle|] == s[1..][i..i + |needle|];
        assert OccursAt(s, needle, i + 1);
      }
      if Occurs(s, needle) {
        var i: nat :| OccursAt(s, needle, i);
        assert i != 0;
        assert s[1..][i - 1..i - 1 + |needle|] == s[i..i + |needle|];
        assert OccursAt(s[1..], needle, i - 1);
      }
    }
  }

  /** A string occurs at the end of anything it is appended to. */
  lemma OccursAtEnd(s: string, needle: string)
    ensures Occurs(s + needle, needle)
  {
    assert (s + needle)[|s|..|s| + |needle|] == needle;
    assert OccursAt(s + needle, needle, |s|);
  }

  /** A string occurs at the start of anything that follows it. */
  lemma OccursAtStart(needle: string, s: string)
    ensures Occurs(needle + s, needle)
  {
    assert (needle + s)[..|needle|] == needle;
    assert OccursAt(needle + s, needle, 0);
  }

  /** An occurrence in `s` is still one after text is appended to `s`. */
  lemma OccursBefore(s: string, b: string, needle: string)
    requires Occurs(s, needle)
    ensures Occurs(s + b, needle)
  {
    var i: nat :| OccursAt(s, needle, i);
    assert (s + b)[i..i + |needle|] == s[i..i + |needle|];
    assert OccursAt(s + b, needle, i);
  }
}
