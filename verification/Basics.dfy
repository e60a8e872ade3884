/** An optional value, and the sizes of finite sets that the searches with a visited set end by. */
module Basics {

  datatype Option<T> = None | Some(value: T)

  lemma {:induction false} Smaller<T>(a: set<T>, b: set<T>)
    requires a <= b
    ensures |a| <= |b|
  {
    if a != b {
      var x :| x in b && x !in a;
      Smaller(a, b - {x});
    }
  }

  /** A visited set that grows from v to w, by x at least, leaves fewer to visit. */
  lemma Shrinks<T>(all: set<T>, v: set<T>, w: set<T>, x: T)
    requires v <= w && x in all && x !in v && x in w
    ensures |all - w| < |all - v|
  {
    assert all - w <= all - v - {x};
    Smaller(all - w, all - v - {x});
  }
}
