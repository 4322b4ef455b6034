/**
 * The string operations the client applies before comparing: `String.prototype.trim`,
 * `toLowerCase` and `includes`. Whitespace and case are taken over ASCII only.
 */
module Strings {

  /** The ASCII characters `trim` removes. */
  predicate IsSpace(c: char) {
    c == ' ' || c == '\t' || c == '\n' || c == '\r' || c == '\U{000B}' || c == '\U{000C}'
  }

  /** Every character of `s` is whitespace (vacuously true of the empty string). */
  ghost predicate IsBlank(s: string) {
    forall i :: 0 <= i < |s| ==> IsSpace(s[i])
  }

  /** `s` with its leading whitespace removed. */
  function TrimStart(s: string): (r: string)
    ensures |r| <= |s| && r == s[|s| - |r|..]
    ensures |r| > 0 ==> !IsSpace(r[0])
    ensures forall i :: 0 <= i < |s| - |r| ==> IsSpace(s[i])
  {
    if |s| > 0 && IsSpace(s[0]) then TrimStart(s[1..]) else s
  }

  /** `s` with its trailing whitespace removed. */
  function TrimEnd(s: string): (r: string)
    ensures |r| <= |s| && r == s[..|r|]
    ensures |r| > 0 ==> !IsSpace(r[|r| - 1])
    ensures forall i :: |r| <= i < |s| ==> IsSpace(s[i])
  {
    if |s| > 0 && IsSpace(s[|s| - 1]) then TrimEnd(s[..|s| - 1]) else s
  }

  function Trim(s: string): string {
    TrimEnd(TrimStart(s))
  }

  /** `!s.trim()`: trimming leaves nothing exactly when the string is all whitespace. */
  lemma TrimEmptyIff(s: string)
    ensures Trim(s) == "" <==> IsBlank(s)
  {
  }

  /** `s.trim()` is empty, decided character by character without building the trimmed string. */
  function TrimsToEmpty(s: string): bool
    decreases |s|
  {
    |s| == 0 || (IsSpace(s[0]) && TrimsToEmpty(s[1..]))
  }

  /** The character-by-character decision agrees with trimming, and with blankness. */
  lemma {:induction false} TrimsToEmptyIff(s: string)
    ensures TrimsToEmpty(s) <==> IsBlank(s)
    ensures TrimsToEmpty(s) <==> Trim(s) == ""
    decreases |s|
  {
    TrimEmptyIff(s);
    if |s| > 0 {
      TrimsToEmptyIff(s[1..]);
      assert forall i :: 1 <= i < |s| ==> s[i] == s[1..][i - 1];
    }
  }

  function LowerChar(c: char): char {
    if 'A' <= c <= 'Z' then (c as int + 32) as char else c
  }

  /** `toLowerCase`, character by character. */
  function Lower(s: string): (r: string)
    ensures |r| == |s|
    ensures forall i :: 0 <= i < |s| ==> r[i] == LowerChar(s[i])
  {
    seq(|s|, i requires 0 <= i < |s| => LowerChar(s[i]))
  }

  /** Lower-casing an already lower-cased string changes nothing. */
  lemma LowerIdempotent(s: string)
    ensures Lower(Lower(s)) == Lower(s)
  {
  }

  /** `needle` occurs in `hay` starting at position `i`. */
  ghost predicate OccursAt(hay: string, needle: string, i: int) {
    0 <= i && i + |needle| <= |hay| && hay[i..i + |needle|] == needle
  }

  ghost predicate IsSubstring(needle: string, hay: string) {
    exists i :: OccursAt(hay, needle, i)
  }

  /** `hay.includes(needle)`: try each start position from the left. */
  function Includes(hay: string, needle: string): bool
    decreases |hay|
  {
    if |needle| > |hay| then false
    else if hay[..|needle|] == needle then true
    else Includes(hay[1..], needle)
  }

  /** The search implements substring containment. */
  lemma {:induction false} IncludesIff(hay: string, needle: string)
    ensures Includes(hay, needle) <==> IsSubstring(needle, hay)
    decreases |hay|
  {
    if |needle| > |hay| {
    } else if hay[..|needle|] == needle {
      assert OccursAt(hay, needle, 0);
    } else {
      IncludesIff(hay[1..], needle);
      if Includes(hay[1..], needle) {
        var j :| OccursAt(hay[1..], needle, j);
        assert hay[j + 1..j + 1 + |needle|] == hay[1..][j..j + |needle|];
        assert OccursAt(hay, needle, j + 1);
      }
      if IsSubstring(needle, hay) {
        var i :| OccursAt(hay, needle, i);
        assert i != 0;
        assert hay[1..][i - 1..i - 1 + |needle|] == hay[i..i + |needle|];
        assert OccursAt(hay[1..], needle, i - 1);
      }
    }
  }

  /** An occurrence of an occurrence is an occurrence. */
  lemma SubstringTransitive(a: string, b: string, c: string)
    requires IsSubstring(a, b) && IsSubstring(b, c)
    ensures IsSubstring(a, c)
  {
    var i :| OccursAt(b, a, i);
    var j :| OccursAt(c, b, j);
    forall k | 0 <= k < |a|
      ensures c[j + i + k] == a[k]
    {
      assert c[j + i + k] == c[j..j + |b|][i + k] == b[i + k];
      assert b[i + k] == b[i..i + |a|][k];
    }
    assert OccursAt(c, a, j + i);
  }

  /** Lower-casing both sides preserves an occurrence. */
  lemma LowerPreservesSubstring(a: string, b: string)
    requires IsSubstring(a, b)
    ensures IsSubstring(Lower(a), Lower(b))
  {
    var i :| OccursAt(b, a, i);
    assert Lower(b)[i..i + |a|] == Lower(a);
    assert OccursAt(Lower(b), Lower(a), i);
  }
}
