/** Just enough of JavaScript's string library for the drug-list pipeline:
    `String.prototype.toLowerCase` (restricted to ASCII letters) and
    `String.prototype.includes` (substring search). */
module Strings {

  /** Lower-case one character; only the ASCII capitals 'A'..'Z' change. */
  function LowerChar(c: char): char
  {
    if 'A' <= c <= 'Z' then (c as int + 32) as char else c
  }

  /** `s.toLowerCase()` on ASCII text. */
  function ToLower(s: string): string
  {
    seq(|s|, i requires 0 <= i < |s| => LowerChar(s[i]))
  }

  /** A copy of `needle` starts at position `i` of `hay`. */
  predicate OccursAt(hay: string, needle: string, i: nat)
  {
    i + |needle| <= |hay| && hay[i..i + |needle|] == needle
  }

  /** `hay.includes(needle)`: some position of `hay` starts a copy of `needle`. */
  predicate Contains(hay: string, needle: string)
  {
    exists i: nat | i <= |hay| - |needle| :: OccursAt(hay, needle, i)
  }

  /** Lower-casing twice is lower-casing once. */
  lemma ToLowerIdempotent(s: string)
    ensures ToLower(ToLower(s)) == ToLower(s)
  {
  }

  /** Lower-casing keeps the length, so a non-empty search term stays non-empty. */
  lemma ToLowerLength(s: string)
    ensures |ToLower(s)| == |s|
  {
  }

  /** A copy of `needle` at offset `i` is a witness for `Contains`. */
  lemma ContainsAt(hay: string, needle: string, i: nat)
    requires i + |needle| <= |hay|
    requires hay[i..i + |needle|] == needle
    ensures Contains(hay, needle)
  {
    assert OccursAt(hay, needle, i);
  }

  /** A text that lacks one of the needle's characters cannot contain the needle. */
  lemma MissingCharacter(hay: string, needle: string, k: nat)
    requires k < |needle|
    requires forall j | 0 <= j < |hay| :: hay[j] != needle[k]
    ensures !Contains(hay, needle)
  {
    forall i: nat | i <= |hay| - |needle|
      ensures !OccursAt(hay, needle, i)
    {
      assert hay[i..i + |needle|][k] == hay[i + k];
    }
  }

  /** Every string contains the empty string (`"x".includes("")` is true). */
  lemma ContainsEmpty(hay: string)
    ensures Contains(hay, "")
  {
    ContainsAt(hay, "", 0);
  }

  /** Whatever a string contains is no longer than the string. */
  lemma ContainsShorter(hay: string, needle: string)
    requires Contains(hay, needle)
    ensures |needle| <= |hay|
  {
  }

  /** What the left part of a concatenation contains, the whole contains. */
  lemma ContainsInLeft(a: string, b: string, needle: string)
    requires Contains(a, needle)
    ensures Contains(a + b, needle)
  {
    var i: nat :| i <= |a| - |needle| && OccursAt(a, needle, i);
    assert (a + b)[i..i + |needle|] == a[i..i + |needle|];
    ContainsAt(a + b, needle, i);
  }

  /** What the right part of a concatenation contains, the whole contains. */
  lemma ContainsInRight(a: string, b: string, needle: string)
    requires Contains(b, needle)
    ensures Contains(a + b, needle)
  {
    var i: nat :| i <= |b| - |needle| && OccursAt(b, needle, i);
    assert (a + b)[|a| + i..|a| + i + |needle|] == b[i..i + |needle|];
    ContainsAt(a + b, needle, |a| + i);
  }
}
