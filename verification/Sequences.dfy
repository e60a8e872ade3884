/** Small facts about sequences that the proofs regroup words and operators with. */
module Sequences {

  predicate NoRepeats<T(==)>(s: seq<T>) {
    forall i, j :: 0 <= i < j < |s| ==> s[i] != s[j]
  }

  lemma Regroup<T>(a: seq<T>, b: seq<T>, c: seq<T>)
    ensures a + b + c == a + (b + c)
  {
  }

  lemma RegroupSeven<T>(a: seq<T>, b: seq<T>, c: seq<T>, d: seq<T>, e: seq<T>, f: seq<T>, g: seq<T>, h: seq<T>)
    ensures a + b + c + d + e + f + g + h == a + (b + (c + (d + (e + (f + (g + h))))))
  {
    Regroup(a + b + c + d + e + f, g, h);
    Regroup(a + b + c + d + e, f, g + h);
    Regroup(a + b + c + d, e, f + (g + h));
    Regroup(a + b + c, d, e + (f + (g + h)));
    Regroup(a + b, c, d + (e + (f + (g + h))));
    Regroup(a, b, c + (d + (e + (f + (g + h)))));
  }

  /** The places js of s, in their order, hold r. */
  predicate PickedAt<T(==)>(r: seq<T>, s: seq<T>, js: seq<nat>) {
    && |js| == |r|
    && (forall k :: 0 <= k < |js| ==> js[k] < |s| && r[k] == s[js[k]])
    && (forall k, l :: 0 <= k < l < |js| ==> js[k] < js[l])
  }

  lemma PickedMore<T>(r: seq<T>, s: seq<T>, js: seq<nat>, x: T)
    requires PickedAt(r, s, js)
    ensures PickedAt(r, s + [x], js) && PickedAt(r + [x], s + [x], js + [|s|])
  {
  }
}
