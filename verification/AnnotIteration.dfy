/** The order in which a page view draws its annotations, and the order in which it tests them for a hit. */
module AnnotIteration {
  import opened Basics
  import Sequences

  datatype Kind = Popup | Widget | Other

  /** id stands for the object; a view holds no annotation twice. */
  datatype Annot = Annot(id: nat, kind: Kind)

  function LayoutOrder(a: Annot): nat {
    match a.kind case Popup => 1 case Widget => 2 case Other => 5
  }

  /** The annotations with a layout order, as they follow each other. */
  function OfOrder(s: seq<Annot>, v: nat): (r: seq<Annot>)
    ensures forall a :: a in r <==> a in s && LayoutOrder(a) == v
  {
    if s == [] then [] else (if LayoutOrder(s[0]) == v then [s[0]] else []) + OfOrder(s[1..], v)
  }

  /** The list, stably sorted by layout order. */
  function Arranged(s: seq<Annot>): seq<Annot> { OfOrder(s, 1) + OfOrder(s, 2) + OfOrder(s, 5) }

  ghost predicate SortedByOrder(s: seq<Annot>) {
    forall i, j :: 0 <= i < j < |s| ==> LayoutOrder(s[i]) <= LayoutOrder(s[j])
  }

  ghost predicate StableFor(r: seq<Annot>, s: seq<Annot>) {
    forall v :: OfOrder(r, v) == OfOrder(s, v)
  }

  function Removed(s: seq<Annot>, a: Annot): seq<Annot> {
    if s == [] then [] else if s[0] == a then s[1..] else [s[0]] + Removed(s[1..], a)
  }

  function Reversed(s: seq<Annot>): seq<Annot> {
    if s == [] then [] else Reversed(s[1..]) + [s[0]]
  }

  /** The focus annotation of the page comes first, whatever its layout order. */
  function Forward(view: seq<Annot>, focus: Option<Annot>): seq<Annot> {
    if focus.Some? && focus.value in view then [focus.value] + Removed(Arranged(view), focus.value)
    else Arranged(view)
  }

  function Iteration(view: seq<Annot>, focus: Option<Annot>, reverse: bool): seq<Annot> {
    if reverse then Reversed(Forward(view, focus)) else Forward(view, focus)
  }

  lemma {:induction false} OfOrderAppend(s: seq<Annot>, t: seq<Annot>, v: nat)
    ensures OfOrder(s + t, v) == OfOrder(s, v) + OfOrder(t, v)
  {
    if s == [] {
      assert s + t == t;
    } else {
      assert (s + t)[0] == s[0] && (s + t)[1..] == s[1..] + t;
      OfOrderAppend(s[1..], t, v);
      var first := if LayoutOrder(s[0]) == v then [s[0]] else [];
      assert OfOrder(s, v) == first + OfOrder(s[1..], v);
      assert OfOrder(s + t, v) == first + OfOrder(s[1..] + t, v);
      hide OfOrder;
      Sequences.Regroup(first, OfOrder(s[1..], v), OfOrder(t, v));
    }
  }

  lemma OfOrderOne(a: Annot, v: nat)
    ensures OfOrder([a], v) == if LayoutOrder(a) == v then [a] else []
  {
    assert [a][1..] == [];
  }

  lemma {:induction false} OfOrderEmpty(s: seq<Annot>, v: nat)
    requires forall i :: 0 <= i < |s| ==> LayoutOrder(s[i]) != v
    ensures OfOrder(s, v) == []
  {
    if s != [] { OfOrderEmpty(s[1..], v); }
  }

  /** Where the next element goes so that the list stays sorted and equal elements keep their order. */
  lemma InsertedIsStable(r: seq<Annot>, k: nat, a: Annot, v: nat)
    requires k <= |r| && forall j :: k <= j < |r| ==> LayoutOrder(a) < LayoutOrder(r[j])
    ensures OfOrder(r[..k] + [a] + r[k..], v) == OfOrder(r, v) + (if LayoutOrder(a) == v then [a] else [])
  {
    var (front, back) := (r[..k], r[k..]);
    assert r == front + back;
    OfOrderAppend(front, back, v);
    OfOrderAppend(front + [a], back, v);
    OfOrderAppend(front, [a], v);
    OfOrderOne(a, v);
    if LayoutOrder(a) == v { OfOrderEmpty(back, v); }
  }

  lemma InsertedIsSorted(r: seq<Annot>, k: nat, a: Annot)
    requires k <= |r| && SortedByOrder(r)
    requires forall j :: 0 <= j < k ==> LayoutOrder(r[j]) <= LayoutOrder(a)
    requires forall j :: k <= j < |r| ==> LayoutOrder(a) < LayoutOrder(r[j])
    ensures SortedByOrder(r[..k] + [a] + r[k..])
  {
    hide LayoutOrder;
  }

  /** std::stable_sort. */
  method StableSort(s: seq<Annot>) returns (r: seq<Annot>)
    ensures SortedByOrder(r) && StableFor(r, s)
  {
    hide OfOrder;
    r := [];
    for i := 0 to |s|
      invariant SortedByOrder(r) && StableFor(r, s[..i])
    {
      var (a, k) := (s[i], |r|);
      while k > 0 && LayoutOrder(r[k - 1]) > LayoutOrder(a)
        invariant 0 <= k <= |r|
        invariant forall j :: k <= j < |r| ==> LayoutOrder(a) < LayoutOrder(r[j])
      {
        k := k - 1;
      }
      forall j | 0 <= j < k ensures LayoutOrder(r[j]) <= LayoutOrder(a) {
        assert j < k - 1 ==> LayoutOrder(r[j]) <= LayoutOrder(r[k - 1]);
      }
      InsertedIsSorted(r, k, a);
      forall v ensures OfOrder(r[..k] + [a] + r[k..], v) == OfOrder(s[..i + 1], v) {
        InsertedIsStable(r, k, a, v);
        assert s[..i + 1] == s[..i] + [a];
        OfOrderAppend(s[..i], [a], v);
        OfOrderOne(a, v);
        assert OfOrder(r, v) == OfOrder(s[..i], v);
      }
      r := r[..k] + [a] + r[k..];
    }
    assert s[..|s|] == s;
  }

  /** There is only one stably sorted arrangement. */
  lemma {:induction false} StableIsArranged(r: seq<Annot>, s: seq<Annot>)
    requires SortedByOrder(r) && StableFor(r, s)
    ensures r == Arranged(s)
  {
    SortedIsArranged(r);
    assert OfOrder(r, 1) == OfOrder(s, 1) && OfOrder(r, 2) == OfOrder(s, 2) && OfOrder(r, 5) == OfOrder(s, 5);
  }

  lemma OfOrderFirst(s: seq<Annot>, v: nat)
    requires s != []
    ensures OfOrder(s, v) == if LayoutOrder(s[0]) == v then [s[0]] + OfOrder(s[1..], v) else OfOrder(s[1..], v)
  {
  }

  lemma FirstOfThree(a: Annot, x: seq<Annot>, y: seq<Annot>, z: seq<Annot>)
    ensures [a] + x + y + z == [a] + (x + y + z)
    ensures [] + ([a] + y) + z == [a] + ([] + y + z)
    ensures [] + [] + ([a] + z) == [a] + ([] + [] + z)
  {
  }

  lemma LeastFirst(s: seq<Annot>)
    requires s != [] && forall j :: 0 <= j < |s[1..]| ==> LayoutOrder(s[0]) <= LayoutOrder(s[1..][j])
    ensures Arranged(s) == [s[0]] + Arranged(s[1..])
  {
    var (a, rest) := (s[0], s[1..]);
    OfOrderFirst(s, 1);
    OfOrderFirst(s, 2);
    OfOrderFirst(s, 5);
    if LayoutOrder(a) > 1 { OfOrderEmpty(rest, 1); }
    if LayoutOrder(a) > 2 { OfOrderEmpty(rest, 2); }
    hide OfOrder;
    FirstOfThree(a, OfOrder(rest, 1), OfOrder(rest, 2), OfOrder(rest, 5));
  }

  lemma {:induction false} SortedIsArranged(r: seq<Annot>)
    requires SortedByOrder(r)
    ensures r == Arranged(r)
  {
    if r != [] {
      SortedIsArranged(r[1..]);
      LeastFirst(r);
      hide Arranged;
      assert r == [r[0]] + r[1..];
    }
  }

  /** The annotation is taken out of the list and put before it. */
  method MoveToFront(list: seq<Annot>, a: Annot) returns (r: seq<Annot>)
    ensures r == if a in list then [a] + Removed(list, a) else list
  {
    var k := 0;
    while k < |list| && list[k] != a
      invariant 0 <= k <= |list| && a !in list[..k]
    {
      assert list[..k + 1] == list[..k] + [list[k]];
      k := k + 1;
    }
    assert list == list[..k] + list[k..];
    r := list;
    if k < |list| {
      RemovedAppend(list[..k], list[k..], a);
      assert list[k..][1..] == list[k + 1..];
      r := r[..k] + r[k + 1..];
      r := [a] + r;
    }
  }

  method Reverse(list: seq<Annot>) returns (r: seq<Annot>)
    ensures r == Reversed(list)
  {
    r := [];
    ReversedKeepsAll(list);
    for i := 0 to |list|
      invariant |r| == i && forall j :: 0 <= j < i ==> r[j] == list[i - 1 - j]
    {
      r := [list[i]] + r;
    }
  }

  class AnnotIteration {
    var list: seq<Annot>

    constructor (view: seq<Annot>, focus: Option<Annot>, reverse: bool)
      ensures list == Iteration(view, focus, reverse)
    {
      var copied := StableSort(view);
      StableIsArranged(copied, view);
      ArrangedElements(view);
      hide Arranged, Removed, Reversed, SortedByOrder, StableFor;
      if focus.Some? { copied := MoveToFront(copied, focus.value); }
      if reverse { copied := Reverse(copied); }
      list := copied;
    }
  }

  lemma ArrangedElements(s: seq<Annot>)
    ensures forall a :: a in Arranged(s) <==> a in s
  {
    forall a ensures a in Arranged(s) <==> a in s {
      assert LayoutOrder(a) == 1 || LayoutOrder(a) == 2 || LayoutOrder(a) == 5;
    }
  }

  lemma {:induction false} ArrangedKeepsAll(s: seq<Annot>)
    ensures multiset(Arranged(s)) == multiset(s)
  {
    if s != [] {
      ArrangedKeepsAll(s[1..]);
      assert s == [s[0]] + s[1..];
      ArrangedFirst(s);
    }
  }

  lemma Three(x: seq<Annot>, y: seq<Annot>, z: seq<Annot>)
    ensures multiset(x + y + z) == multiset(x) + multiset(y) + multiset(z)
  {
  }

  lemma OfOrderCounts(s: seq<Annot>, v: nat)
    requires s != []
    ensures multiset(OfOrder(s, v))
         == multiset(if LayoutOrder(s[0]) == v then [s[0]] else []) + multiset(OfOrder(s[1..], v))
  {
    OfOrderFirst(s, v);
    hide OfOrder;
  }

  lemma ArrangedFirst(s: seq<Annot>)
    requires s != []
    ensures multiset(Arranged(s)) == multiset{s[0]} + multiset(Arranged(s[1..]))
  {
    hide OfOrder;
    OfOrderCounts(s, 1);
    OfOrderCounts(s, 2);
    OfOrderCounts(s, 5);
    Three(OfOrder(s[1..], 1), OfOrder(s[1..], 2), OfOrder(s[1..], 5));
    Three(OfOrder(s, 1), OfOrder(s, 2), OfOrder(s, 5));
  }

  lemma {:induction false} RemovedOne(s: seq<Annot>, a: Annot)
    requires a in s
    ensures multiset(Removed(s, a)) == multiset(s) - multiset{a}
  {
    assert s == [s[0]] + s[1..];
    if s[0] != a { RemovedOne(s[1..], a); }
  }

  lemma {:induction false} ReversedKeepsAll(s: seq<Annot>)
    ensures multiset(Reversed(s)) == multiset(s) && |Reversed(s)| == |s|
    ensures forall i :: 0 <= i < |s| ==> Reversed(s)[i] == s[|s| - 1 - i]
  {
    if s != [] {
      ReversedKeepsAll(s[1..]);
      assert s == [s[0]] + s[1..];
    }
  }

  /** The iteration takes every annotation of the view as often as the view holds it. */
  lemma IterationKeepsAll(view: seq<Annot>, focus: Option<Annot>, reverse: bool)
    ensures multiset(Iteration(view, focus, reverse)) == multiset(view)
  {
    ArrangedKeepsAll(view);
    ArrangedElements(view);
    if focus.Some? && focus.value in view { RemovedOne(Arranged(view), focus.value); }
    ReversedKeepsAll(Forward(view, focus));
  }

  lemma RemovedFirst(b: Annot, t: seq<Annot>, a: Annot)
    ensures Removed([b] + t, a) == if b == a then t else [b] + Removed(t, a)
  {
    assert ([b] + t)[1..] == t;
  }

  lemma {:induction false} RemovedOfOrder(s: seq<Annot>, a: Annot, v: nat)
    ensures OfOrder(Removed(s, a), v) == if LayoutOrder(a) == v then Removed(OfOrder(s, v), a) else OfOrder(s, v)
  {
    if s != [] {
      OfOrderFirst(s, v);
      RemovedFirst(s[0], OfOrder(s[1..], v), a);
      if s[0] != a {
        RemovedOfOrder(s[1..], a, v);
        assert ([s[0]] + Removed(s[1..], a))[1..] == Removed(s[1..], a);
        OfOrderFirst(Removed(s, a), v);
      }
    }
  }

  lemma {:induction false} RemovedAppend(s: seq<Annot>, t: seq<Annot>, a: Annot)
    ensures Removed(s + t, a) == if a in s then Removed(s, a) + t else s + Removed(t, a)
  {
    if s == [] {
      assert s + t == t;
    } else {
      assert (s + t)[0] == s[0] && (s + t)[1..] == s[1..] + t;
      if s[0] != a { RemovedAppend(s[1..], t, a); }
    }
  }

  /** Apart from the annotation with the focus, which comes first, the others are stably sorted. */
  lemma OthersStaySorted(view: seq<Annot>, a: Annot)
    requires a in view
    ensures Forward(view, Some(a)) == [a] + Arranged(Removed(view, a))
  {
    var (x, y, z) := (OfOrder(view, 1), OfOrder(view, 2), OfOrder(view, 5));
    RemovedOfOrder(view, a, 1);
    RemovedOfOrder(view, a, 2);
    RemovedOfOrder(view, a, 5);
    RemovedAppend(x + y, z, a);
    RemovedAppend(x, y, a);
    hide OfOrder, Removed;
  }

  /** The first of the iteration that is a widget and says it is hit. */
  method GetFXWidgetAtPoint(view: seq<Annot>, focus: Option<Annot>, hits: set<nat>) returns (r: Option<Annot>)
    ensures r == FirstHit(Forward(view, focus), hits, true)
  {
    var iteration := new AnnotIteration(view, focus, false);
    var list := iteration.list;
    for i := 0 to |list|
      invariant FirstHit(list[i..], hits, true) == FirstHit(list, hits, true)
    {
      assert list[i..][1..] == list[i + 1..];
      if list[i].kind == Widget {
        if list[i].id in hits { return Some(list[i]); }
      }
    }
    r := None;
  }

  /** The first of the iteration that is no pop-up and whose box contains the point. */
  method GetFXAnnotAtPoint(view: seq<Annot>, focus: Option<Annot>, hits: set<nat>) returns (r: Option<Annot>)
    ensures r == FirstHit(Forward(view, focus), hits, false)
  {
    var iteration := new AnnotIteration(view, focus, false);
    var list := iteration.list;
    for i := 0 to |list|
      invariant FirstHit(list[i..], hits, false) == FirstHit(list, hits, false)
    {
      assert list[i..][1..] == list[i + 1..];
      if list[i].kind == Popup { continue; }
      if list[i].id in hits { return Some(list[i]); }
    }
    r := None;
  }

  /** What PageView_OnDraw draws, in this order. */
  method DrawOrder(view: seq<Annot>, focus: Option<Annot>) returns (drawn: seq<Annot>)
    ensures drawn == Iteration(view, focus, true)
  {
    var iteration := new AnnotIteration(view, focus, true);
    drawn := [];
    for i := 0 to |iteration.list|
      invariant drawn == iteration.list[..i]
    {
      drawn := drawn + [iteration.list[i]];
    }
  }

  predicate Answers(a: Annot, hits: set<nat>, widgets: bool) {
    a.id in hits && if widgets then a.kind == Widget else a.kind != Popup
  }

  function FirstHit(s: seq<Annot>, hits: set<nat>, widgets: bool): Option<Annot> {
    if s == [] then None
    else if Answers(s[0], hits, widgets) then Some(s[0])
    else FirstHit(s[1..], hits, widgets)
  }

  lemma {:induction false} FirstHitIs(s: seq<Annot>, hits: set<nat>, widgets: bool) returns (k: nat)
    ensures FirstHit(s, hits, widgets).None? <==> k == |s|
    ensures k <= |s| && (k < |s| ==> FirstHit(s, hits, widgets) == Some(s[k]) && Answers(s[k], hits, widgets))
    ensures forall j :: 0 <= j < k ==> !Answers(s[j], hits, widgets)
  {
    k := 0;
    if s != [] && !Answers(s[0], hits, widgets) {
      var j := FirstHitIs(s[1..], hits, widgets);
      k := j + 1;
    }
  }

  /** Of those drawn that answer, the one drawn last. */
  ghost predicate PaintedLast(drawn: seq<Annot>, hits: set<nat>, widgets: bool, i: int) {
    0 <= i < |drawn| && Answers(drawn[i], hits, widgets)
    && forall j :: i < j < |drawn| ==> !Answers(drawn[j], hits, widgets)
  }

  /** The annotation found under a point is the one painted over all others that answer for the point; none is found
      exactly when none of the view answers. */
  lemma HitIsPaintedLast(view: seq<Annot>, focus: Option<Annot>, hits: set<nat>, widgets: bool)
    ensures var (found, drawn) := (FirstHit(Forward(view, focus), hits, widgets), Iteration(view, focus, true));
      && (found.Some? ==> exists i :: PaintedLast(drawn, hits, widgets, i) && drawn[i] == found.value)
      && (found.None? <==> forall a :: a in view ==> !Answers(a, hits, widgets))
  {
    var forward := Forward(view, focus);
    var k := FirstHitIs(forward, hits, widgets);
    IterationKeepsAll(view, focus, false);
    ReversedKeepsAll(forward);
    hide Forward, FirstHit, Answers;
    var drawn := Iteration(view, focus, true);
    if k < |forward| {
      assert drawn[|forward| - 1 - k] == forward[k];
      assert PaintedLast(drawn, hits, widgets, |forward| - 1 - k);
      assert forward[k] in multiset(view);
    } else {
      forall a | a in view ensures !Answers(a, hits, widgets) {
        assert a in multiset(forward);
      }
    }
  }

  // ---------- Told by the annotations' own kinds ----------

  /** Pop-ups come before widgets and both before all others; only the annotation with the focus, if the view has it,
      stands before its kind, at the front. */
  lemma KindsInOrder(view: seq<Annot>, focus: Option<Annot>)
    ensures var r := Iteration(view, focus, false);
      var first := if focus.Some? && focus.value in view then 1 else 0;
      && (first == 1 ==> r != [] && r[0] == focus.value)
      && forall i, j :: first <= i < j < |r| ==>
           && (r[j].kind.Popup? ==> r[i].kind.Popup?)
           && (r[j].kind.Widget? ==> r[i].kind.Popup? || r[i].kind.Widget?)
  {
    ArrangedInOrder(view);
    if focus.Some? && focus.value in view {
      OthersStaySorted(view, focus.value);
      ArrangedInOrder(Removed(view, focus.value));
    }
    hide Arranged, Removed;
  }

  lemma ArrangedInOrder(s: seq<Annot>)
    ensures var r := Arranged(s); forall i, j :: 0 <= i < j < |r| ==>
      && (r[j].kind.Popup? ==> r[i].kind.Popup?)
      && (r[j].kind.Widget? ==> r[i].kind.Popup? || r[i].kind.Widget?)
  {
    var (x, y, z) := (OfOrder(s, 1), OfOrder(s, 2), OfOrder(s, 5));
    forall i | 0 <= i < |x| ensures x[i].kind.Popup? { assert x[i] in x; }
    forall i | 0 <= i < |y| ensures y[i].kind.Widget? { assert y[i] in y; }
    forall i | 0 <= i < |z| ensures z[i].kind.Other? { assert z[i] in z; }
    hide OfOrder, LayoutOrder;
    var r := x + y + z;
    forall i | 0 <= i < |r|
      ensures r[i].kind == if i < |x| then Popup else if i < |x| + |y| then Widget else Other
    {
      assert r[i] == if i < |x| then x[i] else if i < |x| + |y| then y[i - |x|] else z[i - |x| - |y|];
    }
  }

  /** a is drawn at place i, and later only annotations that do not count. */
  predicate LastThatCounts(drawn: seq<Annot>, i: nat, a: Annot, counts: Annot -> bool) {
    i < |drawn| && drawn[i] == a && counts(a) && forall j :: i < j < |drawn| ==> !counts(drawn[j])
  }

  function HitWidgets(hits: set<nat>): Annot -> bool { (a: Annot) => a.kind.Widget? && a.id in hits }

  function HitNoPopups(hits: set<nat>): Annot -> bool { (a: Annot) => !a.kind.Popup? && a.id in hits }

  /** The widget found under a point is the widget drawn last of those that say they are hit; the annotation found is
      the one drawn last of those that contain the point and are no pop-ups. */
  lemma HitIsOnTop(view: seq<Annot>, focus: Option<Annot>, hits: set<nat>)
    ensures var (drawn, widget, annot) := (Iteration(view, focus, true), FirstHit(Forward(view, focus), hits, true),
                                           FirstHit(Forward(view, focus), hits, false));
      && (widget.Some? ==> exists i :: LastThatCounts(drawn, i, widget.value, HitWidgets(hits)))
      && (annot.Some? ==> exists i :: LastThatCounts(drawn, i, annot.value, HitNoPopups(hits)))
      && (widget.None? <==> forall a :: a in view && a.kind.Widget? ==> a.id !in hits)
      && (annot.None? <==> forall a :: a in view && !a.kind.Popup? ==> a.id !in hits)
  {
    HitIsPaintedLast(view, focus, hits, true);
    HitIsPaintedLast(view, focus, hits, false);
    hide Iteration, Forward, FirstHit;
    forall a ensures Answers(a, hits, true) <==> HitWidgets(hits)(a) {}
    forall a ensures Answers(a, hits, false) <==> HitNoPopups(hits)(a) {}
    var (drawn, widget, annot) := (Iteration(view, focus, true), FirstHit(Forward(view, focus), hits, true),
                                   FirstHit(Forward(view, focus), hits, false));
    if widget.Some? {
      var i :| PaintedLast(drawn, hits, true, i) && drawn[i] == widget.value;
      assert LastThatCounts(drawn, i, widget.value, HitWidgets(hits));
    }
    if annot.Some? {
      var i :| PaintedLast(drawn, hits, false, i) && drawn[i] == annot.value;
      assert LastThatCounts(drawn, i, annot.value, HitNoPopups(hits));
    }
  }
}
