/** The input sanitizers of backend-js/server.js and its blank-parameter test. */
module ServerSanitize {
  import Text

  /** JavaScript's `\s`, which is also the set `String.prototype.trim` removes:
      the WhiteSpace and LineTerminator code points. */
  predicate IsJsSpace(c: char) {
    c == '\t' || c == '\n' || c == '\U{000B}' || c == '\U{000C}' || c == '\r' || c == ' ' ||
    c == '\U{00A0}' || c == '\U{1680}' || ('\U{2000}' <= c <= '\U{200A}') ||
    c == '\U{2028}' || c == '\U{2029}' || c == '\U{202F}' || c == '\U{205F}' ||
    c == '\U{3000}' || c == '\U{FEFF}'
  }

  /** `[\w\s-]` without the `u` flag: `\w` is ASCII only. */
  predicate IsQueryChar(c: char) {
    Text.IsAsciiWord(c) || IsJsSpace(c) || c == '-'
  }

  /** `[\w\s\-/.]`. */
  predicate IsPathChar(c: char) {
    IsQueryChar(c) || c == '/' || c == '.'
  }

  const QueryLimit: nat := 100
  const PathLimit: nat := 200

  /** `query.replace(/[^\w\s-]/g, '').substring(0, 100)`. After the filter
      every character is a single UTF-16 unit, so `substring` counts characters. */
  function SanitizeQuery(query: string): (r: string)
    ensures |r| <= QueryLimit
    ensures forall i :: 0 <= i < |r| ==> IsQueryChar(r[i])
    ensures Text.IsSubsequence(r, query)
  {
    Text.ScrubIsSubsequence(query, IsQueryChar, QueryLimit);
    Text.Scrub(query, IsQueryChar, QueryLimit)
  }

  /** `url.replace(/[^\w\s\-/.]/g, '').substring(0, 200)`. */
  function SanitizePath(url: string): (r: string)
    ensures |r| <= PathLimit
    ensures forall i :: 0 <= i < |r| ==> IsPathChar(r[i])
    ensures Text.IsSubsequence(r, url)
  {
    Text.ScrubIsSubsequence(url, IsPathChar, PathLimit);
    Text.Scrub(url, IsPathChar, PathLimit)
  }

  lemma SanitizeQueryIdempotent(query: string)
    ensures SanitizeQuery(SanitizeQuery(query)) == SanitizeQuery(query)
  {
    Text.ScrubIdempotent(query, IsQueryChar, QueryLimit);
  }

  /** A query is unchanged exactly when it is already clean and at most 100 long. */
  lemma SanitizeQueryFixedPoint(query: string)
    ensures SanitizeQuery(query) == query <==>
      |query| <= QueryLimit && forall i :: 0 <= i < |query| ==> IsQueryChar(query[i])
  {
    Text.ScrubFixedPoint(query, IsQueryChar, QueryLimit);
  }

  lemma SanitizePathIdempotent(url: string)
    ensures SanitizePath(SanitizePath(url)) == SanitizePath(url)
  {
    Text.ScrubIdempotent(url, IsPathChar, PathLimit);
  }

  lemma SanitizePathFixedPoint(url: string)
    ensures SanitizePath(url) == url <==>
      |url| <= PathLimit && forall i :: 0 <= i < |url| ==> IsPathChar(url[i])
  {
    Text.ScrubFixedPoint(url, IsPathChar, PathLimit);
  }

  /** `s.trim()`. */
  function Trimmed(s: string): string {
    Text.Trim(s, IsJsSpace)
  }

  /** `!s?.trim()`: the parameter is empty or whitespace only. */
  predicate IsBlank(s: string) {
    Trimmed(s) == ""
  }

  lemma IsBlankMeansAllSpace(s: string)
    ensures IsBlank(s) <==> forall i :: 0 <= i < |s| ==> IsJsSpace(s[i])
  {
    Text.TrimEmptyIffBlank(s, IsJsSpace);
  }
}
