/** std::map as the sequence of its pairs in key order, with the insertion of operator[]. */
module OrderedMaps {

  function Put<K, V>(m: seq<(K, V)>, k: K, v: V, less: (K, K) -> bool): seq<(K, V)> {
    if m == [] then [(k, v)]
    else if less(m[0].0, k) then [m[0]] + Put(m[1..], k, v, less)
    else if less(k, m[0].0) then [(k, v)] + m
    else [(k, v)] + m[1..]
  }

  predicate NatLess(a: nat, b: nat) { a < b }

  /** The order std::pair gives a range of codes. */
  predicate PairLess(a: (nat, nat), b: (nat, nat)) {
    a.0 < b.0 || (a.0 == b.0 && a.1 < b.1)
  }

  lemma {:induction false} PutAfterAll<K, V>(m: seq<(K, V)>, k: K, v: V, less: (K, K) -> bool)
    requires forall i :: 0 <= i < |m| ==> less(m[i].0, k)
    ensures Put(m, k, v, less) == m + [(k, v)]
  {
    if m != [] {
      PutAfterAll(m[1..], k, v, less);
      assert m == [m[0]] + m[1..];
    }
  }

  lemma {:induction false} PutOverLast<K, V>(m: seq<(K, V)>, k: K, v: V, less: (K, K) -> bool)
    requires |m| > 0 && m[|m| - 1].0 == k && !less(k, k)
    requires forall i :: 0 <= i < |m| - 1 ==> less(m[i].0, k)
    ensures Put(m, k, v, less) == m[..|m| - 1] + [(k, v)]
  {
    if |m| > 1 {
      PutOverLast(m[1..], k, v, less);
      assert m[..|m| - 1] == [m[0]] + m[1..][..|m| - 2];
    }
  }
}
