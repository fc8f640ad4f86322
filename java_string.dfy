/**
 * The parts of java.lang.String that the command line relies on: trim, toLowerCase and
 * indexOf. A string is a `seq<char>` of Unicode scalar values, whereas Java counts positions
 * in UTF-16 code units. Trimming only looks at characters up to U+0020, and the first U+0020
 * is found at the same place either way, so the difference does not matter here.
 */
module JavaString {

  /** String.trim removes every character whose code is at most U+0020 (space and control characters). */
  predicate IsTrimmable(c: char) {
    c <= ' '
  }

  predicate AllTrimmable(s: string) {
    forall i :: 0 <= i < |s| ==> IsTrimmable(s[i])
  }

  /** Neither end of `s` holds a trimmable character. */
  predicate IsTrimmed(s: string) {
    s != [] ==> !IsTrimmable(s[0]) && !IsTrimmable(s[|s| - 1])
  }

  /** The first position at or after `st` that does not hold a trimmable character (or |s|). */
  function SkipLeading(s: string, st: nat): (r: nat)
    requires st <= |s|
    ensures st <= r <= |s|
    ensures forall k :: st <= k < r ==> IsTrimmable(s[k])
    ensures r < |s| ==> !IsTrimmable(s[r])
    decreases |s| - st
  {
    if st == |s| || !IsTrimmable(s[st]) then st else SkipLeading(s, st + 1)
  }

  /** The end, at or above `st`, of `s[..len]` once its trailing trimmable characters are dropped. */
  function SkipTrailing(s: string, st: nat, len: nat): (r: nat)
    requires st <= len <= |s|
    ensures st <= r <= len
    ensures forall k :: r <= k < len ==> IsTrimmable(s[k])
    ensures r > st ==> !IsTrimmable(s[r - 1])
  {
    if len == st || !IsTrimmable(s[len - 1]) then len else SkipTrailing(s, st, len - 1)
  }

  /** Where the trimmed text starts in `s`. */
  function TrimStart(s: string): nat {
    SkipLeading(s, 0)
  }

  /** Where the trimmed text ends in `s`. */
  function TrimEnd(s: string): nat {
    SkipTrailing(s, TrimStart(s), |s|)
  }

  /**
   * String.trim: the slice of `s` left between its leading and its trailing run of
   * trimmable characters; empty when every character of `s` is trimmable.
   */
  function Trim(s: string): (r: string)
    ensures |r| <= |s|
    ensures r == [] <==> AllTrimmable(s)
    ensures IsTrimmed(r)
  {
    s[TrimStart(s)..TrimEnd(s)]
  }

  /** A string that starts and ends with a non-trimmable character is its own trim. */
  lemma TrimIdentity(s: string)
    requires IsTrimmed(s)
    ensures TrimStart(s) == 0 && TrimEnd(s) == |s| && Trim(s) == s
  {
  }

  lemma TrimIdempotent(s: string)
    ensures Trim(Trim(s)) == Trim(s)
  {
    TrimIdentity(Trim(s));
  }

  /** Trimming a string that ends with a non-trimmable character removes only a blank prefix. */
  lemma TrimKeepsEnd(s: string)
    requires s != [] && !IsTrimmable(s[|s| - 1])
    ensures var r := Trim(s);
      r == s[|s| - |r|..] && AllTrimmable(s[..|s| - |r|])
  {
  }

  /** A space put before a trimmed string is trimmed away again. */
  lemma TrimAfterSpace(s: string)
    requires s != "" && IsTrimmed(s)
    ensures Trim(" " + s) == s
  {
    var t := " " + s;
    assert t[1] == s[0];
    assert SkipLeading(t, 1) == 1;
    assert TrimStart(t) == 1;
    assert t[1..] == s;
  }

  /** Character.toLowerCase for the ASCII letters; every other character maps to itself. */
  function ToLowerChar(c: char): char {
    if 'A' <= c <= 'Z' then (c as int - 'A' as int + 'a' as int) as char else c
  }

  /** String.toLowerCase, character by character: same length, spaces exactly where they were. */
  function ToLowerCase(s: string): (r: string)
    ensures |r| == |s|
    ensures forall i :: 0 <= i < |s| ==> (r[i] == ' ' <==> s[i] == ' ')
  {
    seq(|s|, i requires 0 <= i < |s| => ToLowerChar(s[i]))
  }

  /** String.indexOf: the first position of `c` in `s`, or -1 when `c` does not occur. */
  function IndexOf(s: string, c: char): (i: int)
    ensures -1 <= i < |s|
    ensures i >= 0 ==> s[i] == c && forall k :: 0 <= k < i ==> s[k] != c
    ensures i < 0 <==> c !in s
  {
    if s == [] then -1
    else if s[0] == c then 0
    else
      var j := IndexOf(s[1..], c);
      if j < 0 then -1 else j + 1
  }

  /** The first occurrence is where `c` occurs with no `c` before it. */
  lemma IndexOfAt(s: string, c: char, j: nat)
    requires j < |s| && s[j] == c && forall k :: 0 <= k < j ==> s[k] != c
    ensures IndexOf(s, c) == j
  {
  }

  /** Two strings with `c` at the same positions have the same first position of `c`. */
  lemma IndexOfSamePositions(s: string, t: string, c: char)
    requires |s| == |t|
    requires forall i :: 0 <= i < |s| ==> (s[i] == c <==> t[i] == c)
    ensures IndexOf(s, c) == IndexOf(t, c)
  {
  }

  /** Lower-casing moves no space, so the first space is found at the same position. */
  lemma IndexOfSpaceLowerCase(s: string)
    ensures IndexOf(ToLowerCase(s), ' ') == IndexOf(s, ' ')
  {
    IndexOfSamePositions(ToLowerCase(s), s, ' ');
  }
}
