/**
 * The input sanitizers of backend/k.py and its blank-parameter test.
 * Python's `re` works on Unicode strings: `\s` is `str.isspace`, and `\w`
 * is `_` or any character `str.isalnum` accepts. Beyond ASCII, `isalnum`
 * comes from the Unicode database, so it is a parameter `alnum` here.
 */
module KSanitize {
  import Text
  import ServerSanitize

  /** `str.isspace`, which is also what `\s` and `str.strip()` use. */
  predicate IsPySpace(c: char) {
    ('\t' <= c <= '\r') || ('\U{001C}' <= c <= '\U{001F}') || c == ' ' ||
    c == '\U{0085}' || c == '\U{00A0}' || c == '\U{1680}' || ('\U{2000}' <= c <= '\U{200A}') ||
    c == '\U{2028}' || c == '\U{2029}' || c == '\U{202F}' || c == '\U{205F}' || c == '\U{3000}'
  }

  /** `\w` on a `str` pattern: ASCII letters, digits and `_`, plus the
      non-ASCII characters `alnum` accepts. */
  predicate IsPyWord(c: char, alnum: char -> bool) {
    Text.IsAsciiWord(c) || (c as int >= 0x80 && alnum(c))
  }

  /** The allow-set `[\w\s-]`. */
  function QueryChars(alnum: char -> bool): char -> bool {
    c => IsPyWord(c, alnum) || IsPySpace(c) || c == '-'
  }

  /** The allow-set `[\w\s\-/.]`. */
  function PathChars(alnum: char -> bool): char -> bool {
    c => IsPyWord(c, alnum) || IsPySpace(c) || c == '-' || c == '/' || c == '.'
  }

  const QueryLimit: nat := 100
  const PathLimit: nat := 200

  /** `re.sub(r'[^\w\s-]', '', query)[:100]`, as in both `scrape_smartprix`
      and `scrape_search`. */
  function SanitizeQuery(query: string, alnum: char -> bool): (r: string)
    ensures |r| <= QueryLimit
    ensures forall i :: 0 <= i < |r| ==> QueryChars(alnum)(r[i])
    ensures Text.IsSubsequence(r, query)
  {
    Text.ScrubIsSubsequence(query, QueryChars(alnum), QueryLimit);
    Text.Scrub(query, QueryChars(alnum), QueryLimit)
  }

  /** `re.sub(r'[^\w\s\-/.]', '', url)[:200]`. */
  function SanitizePath(url: string, alnum: char -> bool): (r: string)
    ensures |r| <= PathLimit
    ensures forall i :: 0 <= i < |r| ==> PathChars(alnum)(r[i])
    ensures Text.IsSubsequence(r, url)
  {
    Text.ScrubIsSubsequence(url, PathChars(alnum), PathLimit);
    Text.Scrub(url, PathChars(alnum), PathLimit)
  }

  lemma SanitizeQueryIdempotent(query: string, alnum: char -> bool)
    ensures SanitizeQuery(SanitizeQuery(query, alnum), alnum) == SanitizeQuery(query, alnum)
  {
    Text.ScrubIdempotent(query, QueryChars(alnum), QueryLimit);
  }

  lemma SanitizeQueryFixedPoint(query: string, alnum: char -> bool)
    ensures SanitizeQuery(query, alnum) == query <==>
      |query| <= QueryLimit && forall i :: 0 <= i < |query| ==> QueryChars(alnum)(query[i])
  {
    Text.ScrubFixedPoint(query, QueryChars(alnum), QueryLimit);
  }

  lemma SanitizePathIdempotent(url: string, alnum: char -> bool)
    ensures SanitizePath(SanitizePath(url, alnum), alnum) == SanitizePath(url, alnum)
  {
    Text.ScrubIdempotent(url, PathChars(alnum), PathLimit);
  }

  lemma SanitizePathFixedPoint(url: string, alnum: char -> bool)
    ensures SanitizePath(url, alnum) == url <==>
      |url| <= PathLimit && forall i :: 0 <= i < |url| ==> PathChars(alnum)(url[i])
  {
    Text.ScrubFixedPoint(url, PathChars(alnum), PathLimit);
  }

  /** ASCII text without the four separators U+001C..U+001F is sanitized
      alike by both servers. */
  lemma SanitizersAgreeOnAscii(s: string, alnum: char -> bool)
    requires forall i :: 0 <= i < |s| ==> s[i] as int < 0x80 && !('\U{001C}' <= s[i] <= '\U{001F}')
    ensures SanitizeQuery(s, alnum) == ServerSanitize.SanitizeQuery(s)
    ensures SanitizePath(s, alnum) == ServerSanitize.SanitizePath(s)
  {
    Text.FilterAgrees(s, QueryChars(alnum), ServerSanitize.IsQueryChar);
    Text.FilterAgrees(s, PathChars(alnum), ServerSanitize.IsPathChar);
  }

  /** The two servers do differ: Python keeps an information separator that
      JavaScript drops. */
  lemma SanitizersDiffer(alnum: char -> bool)
    ensures SanitizeQuery("a\U{001C}", alnum) == "a\U{001C}"
    ensures ServerSanitize.SanitizeQuery("a\U{001C}") == "a"
  {
    var s := "a\U{001C}";
    assert s[1..][1..] == [];
    assert Text.Filter(s, QueryChars(alnum)) == s;
    assert Text.Filter(s, ServerSanitize.IsQueryChar) == "a";
  }

  /** `s.strip()`. */
  function Stripped(s: string): string {
    Text.Trim(s, IsPySpace)
  }

  /** `not s or len(s.strip()) == 0`. */
  predicate IsBlank(s: string) {
    Stripped(s) == ""
  }

  lemma IsBlankMeansAllSpace(s: string)
    ensures IsBlank(s) <==> forall i :: 0 <= i < |s| ==> IsPySpace(s[i])
  {
    Text.TrimEmptyIffBlank(s, IsPySpace);
  }
}
