/**
 * The list shapes the extractors build: a prefix of bounded length, an
 * element-wise map (`.each` with `push`, a list comprehension) and a map
 * that drops the elements for which no value is produced (a comprehension
 * with an `if`, a loop body that `continue`s on an exception).
 */
module Seqs {
  import opened Wrappers

  /** The first `n` elements of `s`, or all of `s` when it is shorter
      (`slice(0, n)`, `[:n]`). */
  function Take<T>(s: seq<T>, n: nat): (r: seq<T>)
    ensures r <= s
    ensures |r| == if |s| <= n then |s| else n
  {
    if |s| <= n then s else s[..n]
  }

  function MapSeq<A, B>(s: seq<A>, f: A -> B): seq<B>
  {
    if s == [] then [] else MapSeq(s[..|s| - 1], f) + [f(s[|s| - 1])]
  }

  function FilterMap<A, B>(s: seq<A>, f: A -> Option<B>): seq<B>
  {
    if s == [] then []
    else FilterMap(s[..|s| - 1], f) + (match f(s[|s| - 1]) case Some(y) => [y] case None => [])
  }

  lemma MapSeqSnoc<A, B>(s: seq<A>, x: A, f: A -> B)
    ensures MapSeq(s + [x], f) == MapSeq(s, f) + [f(x)]
  {
    assert (s + [x])[..|s|] == s;
  }

  lemma FilterMapSnoc<A, B>(s: seq<A>, x: A, f: A -> Option<B>)
    ensures FilterMap(s + [x], f) ==
      FilterMap(s, f) + (match f(x) case Some(y) => [y] case None => [])
  {
    assert (s + [x])[..|s|] == s;
  }

  /** One more loop iteration over a prefix of `s` maps one more element. */
  lemma MapSeqStep<A, B>(s: seq<A>, i: nat, f: A -> B)
    requires i < |s|
    ensures MapSeq(s[..i + 1], f) == MapSeq(s[..i], f) + [f(s[i])]
  {
    assert s[..i + 1] == s[..i] + [s[i]];
    MapSeqSnoc(s[..i], s[i], f);
  }

  lemma FilterMapStep<A, B>(s: seq<A>, i: nat, f: A -> Option<B>)
    requires i < |s|
    ensures FilterMap(s[..i + 1], f) ==
      FilterMap(s[..i], f) + (match f(s[i]) case Some(y) => [y] case None => [])
  {
    assert s[..i + 1] == s[..i] + [s[i]];
    FilterMapSnoc(s[..i], s[i], f);
  }

  /** The map has one element per input element, in the same order. */
  lemma {:induction false} MapSeqAt<A, B>(s: seq<A>, f: A -> B)
    ensures |MapSeq(s, f)| == |s|
    ensures forall i :: 0 <= i < |s| ==> MapSeq(s, f)[i] == f(s[i])
  {
    if s != [] {
      var n := |s| - 1;
      MapSeqAt(s[..n], f);
      forall i | 0 <= i < n ensures MapSeq(s, f)[i] == f(s[i]) {
        assert s[..n][i] == s[i];
      }
    }
  }

  /** The filtered map is no longer than its input. */
  lemma {:induction false} FilterMapBound<A, B>(s: seq<A>, f: A -> Option<B>)
    ensures |FilterMap(s, f)| <= |s|
  {
    if s != [] {
      FilterMapBound(s[..|s| - 1], f);
    }
  }

  /** The filtered map holds exactly the values produced for some element. */
  lemma {:induction false} FilterMapMembers<A, B>(s: seq<A>, f: A -> Option<B>, y: B)
    ensures y in FilterMap(s, f) <==> exists i :: 0 <= i < |s| && f(s[i]) == Some(y)
  {
    if s != [] {
      var n := |s| - 1;
      FilterMapMembers(s[..n], f, y);
      if exists i :: 0 <= i < |s| && f(s[i]) == Some(y) {
        var i :| 0 <= i < |s| && f(s[i]) == Some(y);
        if i < n {
          assert s[..n][i] == s[i];
        }
      }
      if exists i :: 0 <= i < n && f(s[..n][i]) == Some(y) {
        var i :| 0 <= i < n && f(s[..n][i]) == Some(y);
        assert s[i] == s[..n][i];
      }
    }
  }

  /** When every element produces a value, nothing is dropped. */
  lemma {:induction false} FilterMapAll<A, B>(s: seq<A>, f: A -> Option<B>, g: A -> B)
    requires forall i :: 0 <= i < |s| ==> f(s[i]) == Some(g(s[i]))
    ensures FilterMap(s, f) == MapSeq(s, g)
  {
    if s != [] {
      var n := |s| - 1;
      forall i | 0 <= i < n ensures f(s[..n][i]) == Some(g(s[..n][i])) {
        assert s[..n][i] == s[i];
      }
      FilterMapAll(s[..n], f, g);
    }
  }
}
