/**
 * The keyword regexes of the mood and emoji tables all have the shape
 * `/\b(w1|w2|...)\b/i` with lower-case alternatives. This module decides
 * such a pattern: `\b` is a change between a word character
 * (`[A-Za-z0-9_]`) and a non-word character or the string's edge, and the
 * `i` flag equates an ASCII letter with its upper-case form.
 */
module Patterns {

  import opened Text

  predicate IsWordChar(c: char) {
    ('a' <= c <= 'z') || ('A' <= c <= 'Z') || ('0' <= c <= '9') || c == '_'
  }

  /** `\b` holds at position `i` of `s`. */
  predicate Boundary(s: string, i: int)
    requires 0 <= i <= |s|
  {
    (i > 0 && IsWordChar(s[i - 1])) != (i < |s| && IsWordChar(s[i]))
  }

  /** The alternative `w` matches `\bw\b` at index `i` of `s`, ignoring ASCII case. */
  predicate KeywordAt(s: string, w: string, i: int) {
    && 0 <= i && i + |w| <= |s|
    && Lower(s[i..i + |w|]) == w
    && Boundary(s, i) && Boundary(s, i + |w|)
  }

  /** Some alternative of `words` matches at index `i`. */
  predicate AnyKeywordAt(s: string, words: seq<string>, i: int) {
    exists k | 0 <= k < |words| :: KeywordAt(s, words[k], i)
  }

  /** The regex finds a match at some index of `s`. */
  ghost predicate PatternMatches(s: string, words: seq<string>) {
    exists i | 0 <= i <= |s| :: AnyKeywordAt(s, words, i)
  }

  /** Scans `s` from index `i` onwards for a match, as `RegExp.prototype.test` does. */
  function MatchFrom(s: string, words: seq<string>, i: nat): (r: bool)
    requires i <= |s|
    ensures r <==> exists j | i <= j <= |s| :: AnyKeywordAt(s, words, j)
    decreases |s| - i
  {
    if AnyKeywordAt(s, words, i) then true
    else if i == |s| then false
    else MatchFrom(s, words, i + 1)
  }

  /** `re.test(s)` for `re = /\b(words)\b/i`. */
  function Matches(s: string, words: seq<string>): (r: bool)
    ensures r <==> PatternMatches(s, words)
  {
    MatchFrom(s, words, 0)
  }

  /** A word-bounded pattern never matches the empty string: there is no `\b` in it. */
  lemma NoMatchInEmpty(words: seq<string>)
    ensures !Matches("", words)
  {
  }
}
