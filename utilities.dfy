/**
  Case-insensitive string matching and UNC detection (src/utilities.rs).
  Rust's Unicode `to_lowercase` is modelled as ASCII lower-casing, one
  character for one character.
 */
module Utilities {
  import opened Wrappers

  /** ASCII lower-casing of one character. */
  function Lower(c: char): char {
    if 'A' <= c <= 'Z' then (c as int + 32) as char else c
  }

  /** `str::to_lowercase`, character by character. */
  function LowerStr(s: string): (r: string)
    ensures |r| == |s|
    ensures forall i :: 0 <= i < |s| ==> r[i] == Lower(s[i])
  {
    seq(|s|, i requires 0 <= i < |s| => Lower(s[i]))
  }

  /** `pat` occurs at position `i` of `text`. */
  predicate MatchesAt(text: string, pat: string, i: nat) {
    i + |pat| <= |text| && text[i..i + |pat|] == pat
  }

  /** `pat` is a contiguous substring of `text`. */
  predicate OccursIn(pat: string, text: string) {
    exists i: nat :: i <= |text| && MatchesAt(text, pat, i)
  }

  /**
    The first position at or after `from` where `pat` occurs in `text`:
    the first item of the iterator `text.matches(pat)` when `from` is 0.
   */
  function FirstMatch(text: string, pat: string, from: nat): (r: Option<nat>)
    requires from <= |text| + 1
    ensures r.Some? ==> from <= r.value && MatchesAt(text, pat, r.value)
    ensures r.Some? ==> forall j: nat :: from <= j < r.value ==> !MatchesAt(text, pat, j)
    ensures r.None? ==> forall j: nat :: from <= j ==> !MatchesAt(text, pat, j)
    decreases |text| + 1 - from
  {
    if from + |pat| > |text| then None
    else if text[from..from + |pat|] == pat then Some(from)
    else FirstMatch(text, pat, from + 1)
  }

  /**
    `string_match(needle, haystack)`: true when the lower-cased haystack
    occurs inside the lower-cased needle.
   */
  function StringMatch(needle: string, haystack: string): (b: bool)
    ensures b <==> OccursIn(LowerStr(haystack), LowerStr(needle))
  {
    var needleLower := LowerStr(needle);
    var haystackLower := LowerStr(haystack);
    if |needleLower| == 0 && |haystackLower| == 0 then
      assert MatchesAt(needleLower, haystackLower, 0);
      true
    else FirstMatch(needleLower, haystackLower, 0).Some?
  }

  /** `string_match_str`: the borrowed-string wrapper around `string_match`. */
  function StringMatchStr(needle: string, haystack: string): (b: bool)
    ensures b == StringMatch(needle, haystack)
  {
    StringMatch(needle, haystack)
  }

  /** `char_match`: compares the first character of each lower-case expansion. */
  function CharMatch(needle: char, haystack: char): (b: bool)
    ensures b <==> StringMatch([needle], [haystack])
  {
    var needleLower := LowerStr([needle]);
    var haystackLower := LowerStr([haystack]);
    assert MatchesAt(needleLower, haystackLower, 0) <==> haystackLower[0] == needleLower[0];
    haystackLower[0] == needleLower[0]
  }

  /** `path_is_unc`: the path begins with two backslashes. */
  function PathIsUnc(path: string): (b: bool)
    ensures b <==> |path| >= 2 && path[0] == '\\' && path[1] == '\\'
  {
    |path| >= 2 && path[..2] == "\\\\"
  }

  /** The empty haystack matches every needle; the empty needle matches only the empty haystack. */
  lemma StringMatchEmpty(s: string)
    ensures StringMatch(s, "")
    ensures StringMatch("", s) <==> s == ""
  {
    assert MatchesAt(LowerStr(s), LowerStr(""), 0);
    if s == "" {
      assert MatchesAt(LowerStr(""), LowerStr(""), 0);
    }
  }

  /** Lower-casing is idempotent. */
  lemma LowerStrIdempotent(s: string)
    ensures LowerStr(LowerStr(s)) == LowerStr(s)
  {
  }

  /** The result depends on neither argument's case. */
  lemma StringMatchIgnoresCase(needle: string, haystack: string)
    ensures StringMatch(LowerStr(needle), haystack) == StringMatch(needle, haystack)
    ensures StringMatch(needle, LowerStr(haystack)) == StringMatch(needle, haystack)
  {
    LowerStrIdempotent(needle);
    LowerStrIdempotent(haystack);
  }

  /** Every string matches itself. */
  lemma StringMatchReflexive(s: string)
    ensures StringMatch(s, s)
  {
    assert MatchesAt(LowerStr(s), LowerStr(s), 0);
  }

  /** The match is not symmetric: "ab" contains "a" but not the other way round. */
  lemma StringMatchNotSymmetric()
    ensures StringMatch("ab", "A") && !StringMatch("a", "ab")
  {
    assert MatchesAt(LowerStr("ab"), LowerStr("A"), 0);
  }

  /** A UNC path stays UNC whatever is appended to it. */
  lemma PathIsUncPrefix(path: string, rest: string)
    requires PathIsUnc(path)
    ensures PathIsUnc(path + rest)
  {
  }
}
