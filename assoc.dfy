/**
 * A string-keyed table that remembers insertion order: assigning to a key
 * that is present replaces its value in place, a new key goes at the end.
 * This is how a JavaScript object and a Python dict behave when the
 * specification headings are written into them.
 */
module Assoc {
  import opened Wrappers

  type Table<V> = seq<(string, V)>

  function Keys<V>(t: Table<V>): (ks: seq<string>)
    ensures |ks| == |t|
    ensures forall i :: 0 <= i < |t| ==> ks[i] == t[i].0
  {
    if t == [] then [] else [t[0].0] + Keys(t[1..])
  }

  predicate DistinctKeys<V>(t: Table<V>) {
    forall i, j :: 0 <= i < j < |t| ==> t[i].0 != t[j].0
  }

  function Lookup<V>(t: Table<V>, k: string): (r: Option<V>)
    ensures r.None? <==> k !in Keys(t)
  {
    if t == [] then None
    else if t[0].0 == k then Some(t[0].1)
    else Lookup(t[1..], k)
  }

  /** `t[k] = v`. */
  function Put<V>(t: Table<V>, k: string, v: V): (r: Table<V>)
    ensures k in Keys(t) ==> |r| == |t| && Keys(r) == Keys(t)
    ensures k !in Keys(t) ==> r == t + [(k, v)]
  {
    if t == [] then [(k, v)]
    else if t[0].0 == k then [(k, v)] + t[1..]
    else [t[0]] + Put(t[1..], k, v)
  }

  lemma {:induction false} PutLookup<V>(t: Table<V>, k: string, v: V, k': string)
    ensures Lookup(Put(t, k, v), k') == if k' == k then Some(v) else Lookup(t, k')
  {
    if t != [] && t[0].0 != k {
      PutLookup(t[1..], k, v, k');
    }
  }

  lemma {:induction false} PutKeepsDistinct<V>(t: Table<V>, k: string, v: V)
    requires DistinctKeys(t)
    ensures DistinctKeys(Put(t, k, v))
  {
    var r := Put(t, k, v);
    if k in Keys(t) {
      forall i | 0 <= i < |t| ensures r[i].0 == t[i].0 {
        assert Keys(r)[i] == Keys(t)[i];
      }
    } else {
      forall i | 0 <= i < |t| ensures t[i].0 != k {
        assert Keys(t)[i] == t[i].0;
      }
    }
  }

  /** The table obtained by assigning the pairs of `ps` one after the other,
      starting from an empty table. */
  function Build<V>(ps: seq<(string, V)>): Table<V>
  {
    if ps == [] then [] else Put(Build(ps[..|ps| - 1]), ps[|ps| - 1].0, ps[|ps| - 1].1)
  }

  /** A key holds the value of the last pair that assigns it. */
  lemma {:induction false} BuildLookup<V>(ps: seq<(string, V)>, i: nat)
    requires i < |ps|
    requires forall j :: i < j < |ps| ==> ps[j].0 != ps[i].0
    ensures Lookup(Build(ps), ps[i].0) == Some(ps[i].1)
  {
    var n := |ps| - 1;
    var init := ps[..n];
    PutLookup(Build(init), ps[n].0, ps[n].1, ps[i].0);
    if i < n {
      assert init[i] == ps[i];
      forall j | i < j < |init| ensures init[j].0 != init[i].0 {
        assert init[j] == ps[j];
      }
      BuildLookup(init, i);
    }
  }

  /** Assigning one more pair assigns it to the table built so far. */
  lemma BuildSnoc<V>(ps: seq<(string, V)>, p: (string, V))
    ensures Build(ps + [p]) == Put(Build(ps), p.0, p.1)
  {
    assert (ps + [p])[..|ps|] == ps;
  }

  lemma KeysSnoc<V>(t: Table<V>, p: (string, V))
    ensures Keys(t + [p]) == Keys(t) + [p.0]
  {
    var a, b := Keys(t + [p]), Keys(t) + [p.0];
    forall i | 0 <= i < |a| ensures a[i] == b[i] {
      assert a[i] == (t + [p])[i].0;
    }
  }

  lemma {:induction false} BuildMissing<V>(ps: seq<(string, V)>, k: string)
    ensures Lookup(Build(ps), k).None? <==> k !in Keys(ps)
  {
    if ps != [] {
      var n := |ps| - 1;
      var init := ps[..n];
      assert ps == init + [ps[n]];
      KeysSnoc(init, ps[n]);
      PutLookup(Build(init), ps[n].0, ps[n].1, k);
      BuildMissing(init, k);
    }
  }

  lemma {:induction false} BuildDistinct<V>(ps: seq<(string, V)>)
    ensures DistinctKeys(Build(ps))
  {
    if ps != [] {
      var n := |ps| - 1;
      BuildDistinct(ps[..n]);
      PutKeepsDistinct(Build(ps[..n]), ps[n].0, ps[n].1);
    }
  }

  lemma DistinctPrefix<V>(ps: seq<(string, V)>, n: nat)
    requires DistinctKeys(ps)
    requires n <= |ps|
    ensures DistinctKeys(ps[..n])
  {
    forall i, j | 0 <= i < j < n ensures ps[..n][i].0 != ps[..n][j].0 {
      assert ps[..n][i] == ps[i] && ps[..n][j] == ps[j];
    }
  }

  lemma LastKeyFresh<V>(ps: seq<(string, V)>)
    requires DistinctKeys(ps)
    requires ps != []
    ensures ps[|ps| - 1].0 !in Keys(ps[..|ps| - 1])
  {
    var n := |ps| - 1;
    var init := ps[..n];
    forall i | 0 <= i < n ensures Keys(init)[i] != ps[n].0 {
      assert init[i] == ps[i];
    }
  }

  /** When no key repeats, the table is the pairs themselves, in order. */
  lemma {:induction false} BuildOfDistinct<V>(ps: seq<(string, V)>)
    requires DistinctKeys(ps)
    ensures Build(ps) == ps
  {
    if ps != [] {
      var n := |ps| - 1;
      var init := ps[..n];
      DistinctPrefix(ps, n);
      LastKeyFresh(ps);
      BuildOfDistinct(init);
      assert ps == init + [ps[n]];
    }
  }
}
