/**
 * Character-level string operations shared by both servers: the filter and
 * prefix that make up a sanitizer, trimming, concatenation of text nodes,
 * ASCII lower-casing and decimal rendering of status codes.
 */
module Text {
  import Seqs

  /** The characters of `s` that satisfy `keep`, in their original order
      (a global regex replace of the complement class by the empty string). */
  function Filter(s: string, keep: char -> bool): (r: string)
    ensures |r| <= |s|
    ensures forall i :: 0 <= i < |r| ==> keep(r[i])
  {
    if s == [] then []
    else (if keep(s[0]) then [s[0]] else []) + Filter(s[1..], keep)
  }

  /** A sanitizer: drop every character outside the allow-set, then keep at most `n`. */
  function Scrub(s: string, allowed: char -> bool, n: nat): (r: string)
    ensures |r| <= n
    ensures forall i :: 0 <= i < |r| ==> allowed(r[i])
  {
    Seqs.Take(Filter(s, allowed), n)
  }

  /** `[A-Za-z0-9_]`: what `\w` matches among ASCII characters. */
  predicate IsAsciiWord(c: char) {
    ('A' <= c <= 'Z') || ('a' <= c <= 'z') || ('0' <= c <= '9') || c == '_'
  }

  /** `a` can be obtained from `b` by deleting characters. */
  predicate IsSubsequence(a: string, b: string)
    decreases |b|
  {
    |a| <= |b| &&
    (a == [] ||
     (a[0] == b[0] && IsSubsequence(a[1..], b[1..])) ||
     IsSubsequence(a, b[1..]))
  }

  predicate AllSatisfy(s: string, p: char -> bool) {
    forall i :: 0 <= i < |s| ==> p(s[i])
  }

  lemma {:induction false} FilterIsSubsequence(s: string, keep: char -> bool)
    ensures IsSubsequence(Filter(s, keep), s)
  {
    if s != [] {
      FilterIsSubsequence(s[1..], keep);
      if keep(s[0]) {
        assert Filter(s, keep) == [s[0]] + Filter(s[1..], keep);
        assert Filter(s, keep)[0] == s[0];
        assert Filter(s, keep)[1..] == Filter(s[1..], keep);
      } else {
        assert Filter(s, keep) == Filter(s[1..], keep);
      }
    }
  }

  lemma {:induction false} PrefixOfSubsequence(a: string, b: string, n: nat)
    requires IsSubsequence(a, b)
    requires n <= |a|
    ensures IsSubsequence(a[..n], b)
    decreases |b|
  {
    if n == 0 {
      assert a[..n] == [];
    } else if a[0] == b[0] && IsSubsequence(a[1..], b[1..]) {
      PrefixOfSubsequence(a[1..], b[1..], n - 1);
      assert a[..n][1..] == a[1..][..n - 1];
    } else {
      PrefixOfSubsequence(a, b[1..], n);
    }
  }

  /** Filtering keeps a string unchanged exactly when all its characters pass. */
  lemma {:induction false} FilterFixedPoint(s: string, keep: char -> bool)
    ensures Filter(s, keep) == s <==> AllSatisfy(s, keep)
  {
    if s != [] {
      FilterFixedPoint(s[1..], keep);
      if AllSatisfy(s, keep) {
        assert AllSatisfy(s[1..], keep);
      }
    }
  }

  /** Two allow-sets that agree on every character of `s` filter it alike. */
  lemma {:induction false} FilterAgrees(s: string, p: char -> bool, q: char -> bool)
    requires forall i :: 0 <= i < |s| ==> p(s[i]) == q(s[i])
    ensures Filter(s, p) == Filter(s, q)
  {
    if s != [] {
      FilterAgrees(s[1..], p, q);
    }
  }

  /** The sanitizer's output is an order-preserving selection of its input. */
  lemma ScrubIsSubsequence(s: string, allowed: char -> bool, n: nat)
    ensures IsSubsequence(Scrub(s, allowed, n), s)
  {
    var f := Filter(s, allowed);
    FilterIsSubsequence(s, allowed);
    if n < |f| {
      PrefixOfSubsequence(f, s, n);
    }
  }

  /** A string is left unchanged by the sanitizer exactly when it is already
      clean and short enough. */
  lemma ScrubFixedPoint(s: string, allowed: char -> bool, n: nat)
    ensures Scrub(s, allowed, n) == s <==> AllSatisfy(s, allowed) && |s| <= n
  {
    FilterFixedPoint(s, allowed);
    if Scrub(s, allowed, n) == s {
      assert AllSatisfy(s, allowed);
    }
  }

  /** Sanitizing twice is the same as sanitizing once. */
  lemma ScrubIdempotent(s: string, allowed: char -> bool, n: nat)
    ensures Scrub(Scrub(s, allowed, n), allowed, n) == Scrub(s, allowed, n)
  {
    var r := Scrub(s, allowed, n);
    ScrubFixedPoint(r, allowed, n);
  }

  /** Drops leading characters that satisfy `ws`. */
  function TrimStart(s: string, ws: char -> bool): (r: string)
    ensures r == [] || !ws(r[0])
    ensures |r| <= |s|
    decreases |s|
  {
    if s != [] && ws(s[0]) then TrimStart(s[1..], ws) else s
  }

  /** Drops trailing characters that satisfy `ws`. */
  function TrimEnd(s: string, ws: char -> bool): (r: string)
    ensures r == [] || !ws(r[|r| - 1])
    ensures |r| <= |s|
    ensures r != [] ==> r[0] == s[0]
    decreases |s|
  {
    if s != [] && ws(s[|s| - 1]) then TrimEnd(s[..|s| - 1], ws) else s
  }

  /** Drops leading and trailing characters that satisfy `ws`
      (`String.prototype.trim` in JavaScript, `str.strip()` in Python). */
  function Trim(s: string, ws: char -> bool): (r: string)
    ensures r == [] || (!ws(r[0]) && !ws(r[|r| - 1]))
    ensures |r| <= |s|
  {
    TrimEnd(TrimStart(s, ws), ws)
  }

  lemma {:induction false} TrimStartEmpty(s: string, ws: char -> bool)
    ensures TrimStart(s, ws) == [] <==> AllSatisfy(s, ws)
    decreases |s|
  {
    if s != [] && ws(s[0]) {
      TrimStartEmpty(s[1..], ws);
      assert AllSatisfy(s, ws) <==> AllSatisfy(s[1..], ws) by {
        if AllSatisfy(s[1..], ws) {
          forall i | 0 <= i < |s| ensures ws(s[i]) {
            if i > 0 { assert s[i] == s[1..][i - 1]; }
          }
        }
      }
    }
  }

  lemma {:induction false} TrimEndEmpty(s: string, ws: char -> bool)
    ensures TrimEnd(s, ws) == [] <==> AllSatisfy(s, ws)
    decreases |s|
  {
    if s != [] && ws(s[|s| - 1]) {
      var p := s[..|s| - 1];
      TrimEndEmpty(p, ws);
      assert AllSatisfy(s, ws) <==> AllSatisfy(p, ws) by {
        if AllSatisfy(p, ws) {
          forall i | 0 <= i < |s| ensures ws(s[i]) {
            if i < |s| - 1 { assert s[i] == p[i]; }
          }
        }
      }
    }
  }

  /** Trimming yields the empty string exactly when every character is blank. */
  lemma TrimEmptyIffBlank(s: string, ws: char -> bool)
    ensures Trim(s, ws) == [] <==> AllSatisfy(s, ws)
  {
    var t := TrimStart(s, ws);
    TrimStartEmpty(s, ws);
    TrimEndEmpty(t, ws);
  }

  /** The strings of `ss` joined with no separator. */
  function Concat(ss: seq<string>): (r: string)
    ensures ss == [] ==> r == []
  {
    if ss == [] then [] else ss[0] + Concat(ss[1..])
  }

  /** A join is empty exactly when every joined string is. */
  lemma {:induction false} ConcatEmpty(ss: seq<string>)
    ensures Concat(ss) == [] <==> forall i :: 0 <= i < |ss| ==> ss[i] == []
  {
    if ss != [] {
      ConcatEmpty(ss[1..]);
      assert forall i :: 1 <= i < |ss| ==> ss[i] == ss[1..][i - 1];
    }
  }

  predicate StartsWith(s: string, prefix: string) {
    prefix <= s
  }

  function LowerChar(c: char): char {
    if 'A' <= c <= 'Z' then (c as int + 32) as char else c
  }

  /** Lower-cases the ASCII letters of `s` and leaves every other character. */
  function AsciiLower(s: string): (r: string)
    ensures |r| == |s|
  {
    seq(|s|, i requires 0 <= i < |s| => LowerChar(s[i]))
  }

  /** A string without upper-case ASCII letters is left as it is. */
  lemma AsciiLowerKeeps(s: string)
    requires forall i :: 0 <= i < |s| ==> !('A' <= s[i] <= 'Z')
    ensures AsciiLower(s) == s
  {
  }

  function Digit(d: nat): (c: char)
    requires d < 10
    ensures '0' <= c <= '9'
  {
    ('0' as int + d) as char
  }

  /** The decimal rendering of `n` (Python's `str` on a non-negative int). */
  function Decimal(n: nat): (r: string)
    ensures |r| >= 1
    ensures forall i :: 0 <= i < |r| ==> '0' <= r[i] <= '9'
  {
    if n < 10 then [Digit(n)] else Decimal(n / 10) + [Digit(n % 10)]
  }

  /** The number a string of decimal digits denotes. */
  function DecimalValue(s: string): int {
    if s == [] then 0
    else DecimalValue(s[..|s| - 1]) * 10 + (s[|s| - 1] as int - '0' as int)
  }

  lemma {:induction false} DecimalRoundTrip(n: nat)
    ensures DecimalValue(Decimal(n)) == n
  {
    if n >= 10 {
      DecimalRoundTrip(n / 10);
      var r := Decimal(n);
      assert r[..|r| - 1] == Decimal(n / 10);
    }
  }
}
