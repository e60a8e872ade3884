/** The order in which the tab key goes through the annotations of a page. */
module TabOrder {
  import opened Basics
  import opened FlattenMatrix
  import Sequences

  /** An annotation of the page view; id stands for the object, which no two entries of a view share. */
  datatype Annot = Annot(id: nat, subtype: nat, signature: bool, rect: Rect)

  datatype Order = Structure | ByAxis(axis: Axis)

  /** Rows are sorted from the left and led from the top, columns the other way about. */
  datatype Axis = Row | Column

  predicate InOrder(axis: Axis, a: Annot, b: Annot) {
    match axis
    case Row => a.rect.left <= b.rect.left
    case Column => a.rect.top >= b.rect.top
  }

  ghost predicate Sorted(axis: Axis, s: seq<Annot>) {
    forall i, j :: 0 <= i < j < |s| ==> InOrder(axis, s[i], s[j])
  }

  /** The annotation's centre lies strictly between the edges of the leader. */
  predicate Inside(axis: Axis, leader: Rect, a: Annot) {
    match axis
    case Row => leader.bottom < (a.rect.top + a.rect.bottom) / 2.0 < leader.top
    case Column => leader.left < (a.rect.left + a.rect.right) / 2.0 < leader.right
  }

  function Inner(axis: Axis, leader: Rect, s: seq<Annot>): seq<Annot> {
    if s == [] then []
    else (if Inside(axis, leader, s[0]) then [s[0]] else []) + Inner(axis, leader, s[1..])
  }

  function Outer(axis: Axis, leader: Rect, s: seq<Annot>): (r: seq<Annot>)
    ensures |r| <= |s|
  {
    if s == [] then []
    else (if Inside(axis, leader, s[0]) then [] else [s[0]]) + Outer(axis, leader, s[1..])
  }

  /** The downward scan of the row case from below i: the highest top above the one found so far. */
  function RowScan(s: seq<Annot>, i: nat, found: int, top: real): int
    requires i <= |s|
  {
    if i == 0 then found
    else if s[i - 1].rect.top > top then RowScan(s, i - 1, i - 1, s[i - 1].rect.top)
    else RowScan(s, i - 1, found, top)
  }

  /** The downward scan of the column case, which starts over at index 0 while the left edge found is negative. */
  function ColumnScan(s: seq<Annot>, i: nat, found: int, left: real): int
    requires i <= |s|
  {
    if i == 0 then found
    else if left < 0.0 then ColumnScan(s, i - 1, 0, s[i - 1].rect.left)
    else if s[i - 1].rect.left < left then ColumnScan(s, i - 1, i - 1, s[i - 1].rect.left)
    else ColumnScan(s, i - 1, found, left)
  }

  function Leader(axis: Axis, s: seq<Annot>): int {
    match axis
    case Row => RowScan(s, |s|, -1, 0.0)
    case Column => ColumnScan(s, |s|, -1, -1.0)
  }

  lemma {:induction false} RowScanFinds(s: seq<Annot>, i: nat, found: int, top: real)
    requires i <= |s| && (found == -1 || i <= found)
    ensures var r := RowScan(s, i, found, top);
      if r == found then forall j :: 0 <= j < i ==> s[j].rect.top <= top
      else 0 <= r < i && s[r].rect.top > top && (forall j :: 0 <= j < i ==> s[j].rect.top <= s[r].rect.top)
           && (forall j :: r < j < i ==> s[j].rect.top < s[r].rect.top)
  {
    if i > 0 {
      if s[i - 1].rect.top > top { RowScanFinds(s, i - 1, i - 1, s[i - 1].rect.top); }
      else { RowScanFinds(s, i - 1, found, top); }
    }
  }

  /** The row leader is the last, from the left, of those with the greatest positive top. */
  predicate LeadsRow(s: seq<Annot>, k: int) {
    0 <= k < |s| && s[k].rect.top > 0.0
    && (forall j :: 0 <= j < |s| ==> s[j].rect.top <= s[k].rect.top)
    && (forall j :: k < j < |s| ==> s[j].rect.top < s[k].rect.top)
  }

  lemma RowLeaderIff(s: seq<Annot>)
    ensures Leader(Row, s) == -1 <==> forall j :: 0 <= j < |s| ==> s[j].rect.top <= 0.0
    ensures Leader(Row, s) != -1 ==> LeadsRow(s, Leader(Row, s))
    ensures forall k :: LeadsRow(s, k) ==> Leader(Row, s) == k
  {
    RowScanFinds(s, |s|, -1, 0.0);
  }

  lemma {:induction false} ColumnScanInRange(s: seq<Annot>, i: nat, found: int, left: real)
    requires i <= |s| && (0 <= found < |s| || (left < 0.0 && 0 < i))
    ensures 0 <= ColumnScan(s, i, found, left) < |s|
  {
    if i > 0 {
      if left < 0.0 { ColumnScanInRange(s, i - 1, 0, s[i - 1].rect.left); }
      else if s[i - 1].rect.left < left { ColumnScanInRange(s, i - 1, i - 1, s[i - 1].rect.left); }
      else { ColumnScanInRange(s, i - 1, found, left); }
    }
  }

  /** A leader, when there is one, is in the list; in the column case there is always one. */
  lemma LeaderInRange(axis: Axis, s: seq<Annot>)
    ensures -1 <= Leader(axis, s) < |s|
    ensures axis == Column && s != [] ==> Leader(axis, s) >= 0
  {
    match axis
    case Row => RowLeaderIff(s);
    case Column => if s != [] { ColumnScanInRange(s, |s|, -1, -1.0); }
  }

  function RemoveAt<T>(s: seq<T>, k: nat): seq<T>
    requires k < |s|
  {
    s[..k] + s[k + 1..]
  }

  /** What is left of the list once the leader and the annotations inside it are taken. */
  function Remaining(axis: Axis, s: seq<Annot>): (r: seq<Annot>)
    requires 0 <= Leader(axis, s) < |s|
    ensures |r| < |s|
  {
    var k := Leader(axis, s);
    Outer(axis, s[k].rect, RemoveAt(s, k))
  }

  /** One row or column: the leader and then those inside it. */
  function Group(axis: Axis, s: seq<Annot>): seq<Annot>
    requires 0 <= Leader(axis, s) < |s|
  {
    var k := Leader(axis, s);
    [s[k]] + Inner(axis, s[k].rect, RemoveAt(s, k))
  }

  predicate HasLeader(axis: Axis, s: seq<Annot>) { 0 <= Leader(axis, s) < |s| }

  function Groups(axis: Axis, s: seq<Annot>): seq<seq<Annot>>
    decreases |s|
  {
    if HasLeader(axis, s) then [Group(axis, s)] + Groups(axis, Remaining(axis, s)) else []
  }

  /** What no group takes; the loop never ends when this is not empty. */
  function Stuck(axis: Axis, s: seq<Annot>): seq<Annot>
    decreases |s|
  {
    if HasLeader(axis, s) then Stuck(axis, Remaining(axis, s)) else s
  }

  function Joined<T>(groups: seq<seq<T>>): seq<T> {
    if groups == [] then [] else groups[0] + Joined(groups[1..])
  }

  function Collected(view: seq<Annot>, subtypes: seq<nat>): seq<Annot> {
    if view == [] then []
    else (if view[0].subtype in subtypes && !view[0].signature then [view[0]] else [])
         + Collected(view[1..], subtypes)
  }

  lemma {:induction false} CollectedAppend(view: seq<Annot>, a: Annot, subtypes: seq<nat>)
    ensures Collected(view + [a], subtypes)
         == Collected(view, subtypes) + (if a.subtype in subtypes && !a.signature then [a] else [])
  {
    if view == [] {
      assert view + [a] == [a];
    } else {
      assert (view + [a])[1..] == view[1..] + [a];
      CollectedAppend(view[1..], a, subtypes);
    }
  }

  /** The indices below k of the annotations inside the leader. */
  function Indices(axis: Axis, leader: Rect, s: seq<Annot>, k: nat): (r: seq<nat>)
    requires k <= |s|
    ensures forall i :: 0 <= i < |r| ==> r[i] < k
  {
    if k == 0 then []
    else Indices(axis, leader, s, k - 1) + (if Inside(axis, leader, s[k - 1]) then [k - 1] else [])
  }

  ghost predicate Ascending(select: seq<nat>, bound: nat) {
    (forall i :: 0 <= i < |select| ==> select[i] < bound)
    && (forall i, j :: 0 <= i < j < |select| ==> select[i] < select[j])
  }

  function Picked(s: seq<Annot>, select: seq<nat>): seq<Annot>
    requires forall i :: 0 <= i < |select| ==> select[i] < |s|
  {
    seq(|select|, i requires 0 <= i < |select| => s[select[i]])
  }

  /** The list without the selected places, erased from the last one down. */
  ghost function Erased(s: seq<Annot>, select: seq<nat>): seq<Annot>
    requires Ascending(select, |s|)
    decreases |select|
  {
    if select == [] then s
    else
      var last := |select| - 1;
      Erased(RemoveAt(s, select[last]), select[..last])
  }

  lemma {:induction false} IndicesAscend(axis: Axis, leader: Rect, s: seq<Annot>, k: nat)
    requires k <= |s|
    ensures Ascending(Indices(axis, leader, s, k), k)
  {
    if k > 0 { IndicesAscend(axis, leader, s, k - 1); }
  }

  lemma {:induction false} InnerAppend(axis: Axis, leader: Rect, s: seq<Annot>, a: Annot)
    ensures Inner(axis, leader, s + [a]) == Inner(axis, leader, s) + (if Inside(axis, leader, a) then [a] else [])
    ensures Outer(axis, leader, s + [a]) == Outer(axis, leader, s) + (if Inside(axis, leader, a) then [] else [a])
  {
    if s == [] {
      assert s + [a] == [a];
    } else {
      assert (s + [a])[1..] == s[1..] + [a];
      InnerAppend(axis, leader, s[1..], a);
    }
  }

  lemma {:induction false} PickedIsInner(axis: Axis, leader: Rect, s: seq<Annot>, k: nat)
    requires k <= |s|
    ensures Picked(s, Indices(axis, leader, s, k)) == Inner(axis, leader, s[..k])
  {
    if k > 0 {
      PickedIsInner(axis, leader, s, k - 1);
      InnerAppend(axis, leader, s[..k - 1], s[k - 1]);
      assert s[..k] == s[..k - 1] + [s[k - 1]];
    }
  }

  lemma {:induction false} SameIndices(axis: Axis, leader: Rect, s: seq<Annot>, t: seq<Annot>, k: nat)
    requires k <= |s| && k <= |t| && s[..k] == t[..k]
    ensures Indices(axis, leader, s, k) == Indices(axis, leader, t, k)
  {
    if k > 0 {
      assert s[..k][k - 1] == t[..k][k - 1];
      assert s[..k - 1] == s[..k][..k - 1] && t[..k - 1] == t[..k][..k - 1];
      SameIndices(axis, leader, s, t, k - 1);
    }
  }

  lemma {:induction false} ErasedIsOuter(axis: Axis, leader: Rect, s: seq<Annot>, k: nat)
    requires k <= |s| && Ascending(Indices(axis, leader, s, k), |s|)
    ensures Erased(s, Indices(axis, leader, s, k)) == Outer(axis, leader, s[..k]) + s[k..]
    decreases k
  {
    if k > 0 {
      hide Inside, Outer;
      var before := Indices(axis, leader, s, k - 1);
      IndicesAscend(axis, leader, s, k - 1);
      InnerAppend(axis, leader, s[..k - 1], s[k - 1]);
      assert s[..k] == s[..k - 1] + [s[k - 1]];
      if Inside(axis, leader, s[k - 1]) {
        var t := RemoveAt(s, k - 1);
        assert t[..k - 1] == s[..k - 1] && t[k - 1..] == s[k..];
        SameIndices(axis, leader, s, t, k - 1);
        ErasedIsOuter(axis, leader, t, k - 1);
        EraseLast(s, before, k - 1);
        assert Outer(axis, leader, s[..k - 1]) + [] == Outer(axis, leader, s[..k - 1]);
      } else {
        assert before + [] == before;
        ErasedIsOuter(axis, leader, s, k - 1);
        SplitAt(s, k - 1);
        Sequences.Regroup(Outer(axis, leader, s[..k - 1]), [s[k - 1]], s[k..]);
      }
    }
  }

  lemma EraseLast(s: seq<Annot>, before: seq<nat>, k: nat)
    requires k < |s| && Ascending(before, k)
    ensures Ascending(before + [k], |s|)
    ensures Erased(s, before + [k]) == Erased(RemoveAt(s, k), before)
  {
    assert (before + [k])[..|before|] == before;
  }

  lemma SplitAt(s: seq<Annot>, k: nat)
    requires k < |s|
    ensures s[k..] == [s[k]] + s[k + 1..]
  {
  }

  lemma InsertedSorted(axis: Axis, s: seq<Annot>, k: nat, a: Annot)
    requires Sorted(axis, s) && k <= |s|
    requires forall j :: 0 <= j < k ==> InOrder(axis, s[j], a)
    requires forall j :: k <= j < |s| ==> InOrder(axis, a, s[j])
    ensures Sorted(axis, s[..k] + [a] + s[k..])
  {
    hide InOrder;
  }

  lemma InsertedMultiset<T>(s: seq<T>, k: nat, a: T)
    requires k <= |s|
    ensures multiset(s[..k] + [a] + s[k..]) == multiset(s) + multiset{a}
  {
    assert s == s[..k] + s[k..];
  }

  method Insert(axis: Axis, s: seq<Annot>, a: Annot) returns (r: seq<Annot>)
    requires Sorted(axis, s)
    ensures Sorted(axis, r) && multiset(r) == multiset(s) + multiset{a}
  {
    var k := |s|;
    while k > 0 && !InOrder(axis, s[k - 1], a)
      invariant 0 <= k <= |s|
      invariant forall j :: k <= j < |s| ==> InOrder(axis, a, s[j])
    {
      k := k - 1;
    }
    if k > 0 { UpTo(axis, s, k - 1, a); }
    InsertedSorted(axis, s, k, a);
    InsertedMultiset(s, k, a);
    r := s[..k] + [a] + s[k..];
  }

  lemma UpTo(axis: Axis, s: seq<Annot>, k: nat, a: Annot)
    requires Sorted(axis, s) && k < |s| && InOrder(axis, s[k], a)
    ensures forall j :: 0 <= j <= k ==> InOrder(axis, s[j], a)
  {
    forall j | 0 <= j <= k ensures InOrder(axis, s[j], a) {
      assert j < k ==> InOrder(axis, s[j], s[k]);
    }
  }

  /** std::sort: some arrangement in order; nothing is said about annotations that compare equal. */
  method Sort(axis: Axis, s: seq<Annot>) returns (r: seq<Annot>)
    ensures Sorted(axis, r) && multiset(r) == multiset(s)
  {
    r := [];
    for i := 0 to |s|
      invariant Sorted(axis, r) && multiset(r) == multiset(s[..i])
    {
      assert s[..i + 1] == s[..i] + [s[i]];
      r := Insert(axis, r, s[i]);
    }
    assert s[..|s|] == s;
  }

  /** The place of the annotation, or the length of the list. */
  function Place(s: seq<Annot>, a: Annot): nat {
    if s == [] || s[0] == a then 0 else 1 + Place(s[1..], a)
  }

  function NextOf(s: seq<Annot>, a: Annot): Option<Annot> {
    if Place(s, a) + 1 < |s| then Some(s[Place(s, a) + 1]) else None
  }

  function PreviousOf(s: seq<Annot>, a: Annot): Option<Annot> {
    if 0 < Place(s, a) < |s| then Some(s[Place(s, a) - 1]) else None
  }

  class AnnotIterator {
    const view: seq<Annot>
    const subtypes: seq<nat>
    const order: Order
    var annots: seq<Annot>

    constructor (view: seq<Annot>, subtypes: seq<nat>, order: Order)
      ensures this.view == view && this.subtypes == subtypes && this.order == order && annots == []
    {
      this.view := view;
      this.subtypes := subtypes;
      this.order := order;
      annots := [];
    }

    method CollectAnnots() returns (r: seq<Annot>)
      ensures r == Collected(view, subtypes)
    {
      r := [];
      for i := 0 to |view|
        invariant r == Collected(view[..i], subtypes)
      {
        CollectedAppend(view[..i], view[i], subtypes);
        assert view[..i + 1] == view[..i] + [view[i]];
        if view[i].subtype in subtypes {
          if !view[i].signature { r := r + [view[i]]; }
        }
      }
      assert view[..|view|] == view;
    }

    method AddToAnnotsList(sa: seq<Annot>, k: nat) returns (rest: seq<Annot>, rect: Rect)
      requires k < |sa|
      modifies `annots
      ensures annots == old(annots) + [sa[k]] && rest == RemoveAt(sa, k) && rect == sa[k].rect
    {
      rect := sa[k].rect;
      annots := annots + [sa[k]];
      rest := sa[..k] + sa[k + 1..];
    }

    method AddSelectedToAnnots(sa: seq<Annot>, select: seq<nat>) returns (rest: seq<Annot>)
      requires Ascending(select, |sa|)
      modifies `annots
      ensures annots == old(annots) + Picked(sa, select) && rest == Erased(sa, select)
    {
      for i := 0 to |select|
        invariant annots == old(annots) + Picked(sa, select[..i])
      {
        annots := annots + [sa[select[i]]];
        assert Picked(sa, select[..i + 1]) == Picked(sa, select[..i]) + [sa[select[i]]];
      }
      assert select[..|select|] == select;
      rest := sa;
      var i := |select|;
      while i > 0
        invariant 0 <= i <= |select| && Ascending(select[..i], |rest|)
        invariant Erased(rest, select[..i]) == Erased(sa, select)
      {
        i := i - 1;
        assert select[..i + 1][..i] == select[..i];
        rest := rest[..select[i]] + rest[select[i] + 1..];
      }
    }

    method FindLeader(axis: Axis, sa: seq<Annot>) returns (k: int)
      ensures k == Leader(axis, sa)
    {
      k := -1;
      var edge := if axis == Row then 0.0 else -1.0;
      var i := |sa|;
      while i > 0
        invariant 0 <= i <= |sa|
        invariant axis == Row ==> RowScan(sa, i, k, edge) == Leader(axis, sa)
        invariant axis == Column ==> ColumnScan(sa, i, k, edge) == Leader(axis, sa)
      {
        i := i - 1;
        var rect := sa[i].rect;
        if axis == Row {
          if rect.top > edge { k, edge := i, rect.top; }
        } else if edge < 0.0 {
          k, edge := 0, rect.left;
        } else if rect.left < edge {
          k, edge := i, rect.left;
        }
      }
    }

    method SelectInside(axis: Axis, leader: Rect, sa: seq<Annot>) returns (select: seq<nat>)
      ensures select == Indices(axis, leader, sa, |sa|)
    {
      select := [];
      for i := 0 to |sa|
        invariant select == Indices(axis, leader, sa, i)
      {
        var a := sa[i].rect;
        var centre := if axis == Row then (a.top + a.bottom) / 2.0 else (a.left + a.right) / 2.0;
        var inside := if axis == Row then centre > leader.bottom && centre < leader.top
                      else centre > leader.left && centre < leader.right;
        if inside { select := select + [i]; }
      }
    }

    /** Generates the list. Without a leader the loop of the program changes nothing any more and goes round for
        ever; the result says so, and the list is what it had got to. */
    method GenerateResults() returns (hangs: bool)
      requires annots == []
      modifies `annots
      ensures order.Structure? ==> annots == Collected(view, subtypes) && !hangs
      ensures order.ByAxis? ==> exists sorted ::
        && Sorted(order.axis, sorted) && multiset(sorted) == multiset(Collected(view, subtypes))
        && annots == Joined(Groups(order.axis, sorted)) && (hangs <==> Stuck(order.axis, sorted) != [])
    {
      hangs := false;
      var sa := CollectAnnots();
      if order.Structure? {
        annots := sa;
        return;
      }
      var axis := order.axis;
      sa := Sort(axis, sa);
      ghost var sorted := sa;
      while sa != []
        invariant Joined(Groups(axis, sorted)) == annots + Joined(Groups(axis, sa))
        invariant Stuck(axis, sorted) == Stuck(axis, sa)
        decreases |sa|
      {
        var k := FindLeader(axis, sa);
        LeaderInRange(axis, sa);
        if k < 0 {
          hangs := true;
          break;
        }
        ghost var (before, had) := (sa, annots);
        var rect: Rect;
        sa, rect := AddToAnnotsList(sa, k);
        var select := SelectInside(axis, rect, sa);
        IndicesAscend(axis, rect, sa, |sa|);
        PickedIsInner(axis, rect, sa, |sa|);
        ErasedIsOuter(axis, rect, sa, |sa|);
        assert sa[..|sa|] == sa && Outer(axis, rect, sa) + [] == Outer(axis, rect, sa);
        sa := AddSelectedToAnnots(sa, select);
        assert sa == Remaining(axis, before);
        Sequences.Regroup(had, [before[k]], Inner(axis, rect, RemoveAt(before, k)));
        Sequences.Regroup(had, Group(axis, before), Joined(Groups(axis, sa)));
      }
      assert annots + [] == annots;
    }

    method FindAnnot(a: Annot) returns (k: nat)
      ensures k == Place(annots, a) <= |annots|
    {
      k := 0;
      while k < |annots| && annots[k] != a
        invariant 0 <= k <= |annots| && Place(annots, a) == k + Place(annots[k..], a)
      {
        k := k + 1;
      }
    }

    method GetNextAnnot(a: Annot) returns (r: Option<Annot>)
      ensures r == NextOf(annots, a)
    {
      var k := FindAnnot(a);
      if k == |annots| { return None; }
      k := k + 1;
      if k == |annots| { return None; }
      r := Some(annots[k]);
    }

    method GetPrevAnnot(a: Annot) returns (r: Option<Annot>)
      ensures r == PreviousOf(annots, a)
    {
      var k := FindAnnot(a);
      if k == 0 || k == |annots| { return None; }
      r := Some(annots[k - 1]);
    }
  }
}
