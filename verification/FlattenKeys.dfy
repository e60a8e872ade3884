/** The search for a resource name that no older XObject of the page has. */
module FlattenKeys {
  import opened Basics
  import opened Numerals

  const INT_MAX := 2147483647

  function Key(i: nat): string { "FFT" + Decimal(i) }

  predicate AllUsed(names: set<string>, count: nat) {
    forall i: nat :: i < count ==> Key(i) in names
  }

  lemma KeyInjective(i: nat, j: nat)
    requires Key(i) == Key(j)
    ensures i == j
  {
    assert Key(i)[3..] == Decimal(i) && Key(j)[3..] == Decimal(j);
    DecimalInjective(i, j);
  }

  function Keys(count: nat): (r: set<string>)
    ensures forall i: nat :: i < count ==> Key(i) in r
    ensures forall k :: k in r ==> exists i: nat :: i < count && k == Key(i)
  {
    set i: nat | i < count :: Key(i)
  }

  /** The first count keys are as many different names. */
  lemma {:induction false} KeysAreDistinct(count: nat)
    ensures |Keys(count)| == count
  {
    hide Key;
    if count == 0 {
      assert Keys(0) == {};
    } else {
      KeysAreDistinct(count - 1);
      forall i: nat | i < count - 1 ensures Key(i) != Key(count - 1) {
        if Key(i) == Key(count - 1) { KeyInjective(i, count - 1); }
      }
      assert Keys(count) == Keys(count - 1) + {Key(count - 1)};
    }
  }

  /** A set of fewer than count names leaves one of the first count keys free. */
  lemma SomeKeyIsFree(names: set<string>, count: nat)
    requires |names| < count
    ensures !AllUsed(names, count)
  {
    if AllUsed(names, count) {
      Smaller(Keys(count), names);
      KeysAreDistinct(count);
    }
  }

  /** The least free key below INT_MAX, or the empty name when there is none. */
  method FindKey(names: set<string>) returns (key: string)
    ensures key != "" ==> key !in names && exists i: nat :: i < INT_MAX && key == "FFT" + Decimal(i) && AllUsed(names, i)
    ensures key == "" <==> AllUsed(names, INT_MAX)
  {
    key := "";
    var i := 0;
    while i < INT_MAX
      invariant 0 <= i <= INT_MAX && key == "" && AllUsed(names, i)
    {
      var candidate := Key(i);
      if candidate !in names {
        key := candidate;
        break;
      }
      i := i + 1;
    }
  }
}
