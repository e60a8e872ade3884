/** What the tab order is: which annotations it takes, how they fall into rows and columns, and how it is walked. */
module TabOrderTheorems {
  import opened Basics
  import opened FlattenMatrix
  import opened TabOrder
  import opened Sequences

  lemma {:induction false} InnerOuterSplit(axis: Axis, leader: Rect, s: seq<Annot>)
    ensures multiset(Inner(axis, leader, s)) + multiset(Outer(axis, leader, s)) == multiset(s)
  {
    if s != [] {
      InnerOuterSplit(axis, leader, s[1..]);
      InnerOuterCons(axis, leader, s);
      hide Inner, Outer, Inside;
      FirstAndRest(s);
      FirstAnd(s[0], Inner(axis, leader, s[1..]));
      FirstAnd(s[0], Outer(axis, leader, s[1..]));
    }
  }

  lemma InnerOuterCons(axis: Axis, leader: Rect, s: seq<Annot>)
    requires s != []
    ensures var (inner, outer) := (Inner(axis, leader, s[1..]), Outer(axis, leader, s[1..]));
      if Inside(axis, leader, s[0]) then Inner(axis, leader, s) == [s[0]] + inner && Outer(axis, leader, s) == outer
      else Inner(axis, leader, s) == inner && Outer(axis, leader, s) == [s[0]] + outer
  {
  }

  lemma FirstAnd<T>(a: T, t: seq<T>)
    ensures multiset([a] + t) == multiset{a} + multiset(t)
  {
  }

  lemma FirstAndRest<T>(s: seq<T>)
    requires s != []
    ensures multiset(s) == multiset{s[0]} + multiset(s[1..])
  {
    assert s == [s[0]] + s[1..];
  }

  lemma RemoveAtSplit<T>(s: seq<T>, k: nat)
    requires k < |s|
    ensures multiset(s) == multiset{s[k]} + multiset(RemoveAt(s, k))
  {
    assert s == s[..k] + [s[k]] + s[k + 1..];
  }

  lemma GroupSplit(axis: Axis, s: seq<Annot>)
    requires HasLeader(axis, s)
    ensures multiset(Group(axis, s)) + multiset(Remaining(axis, s)) == multiset(s)
  {
    hide Leader, Inside, Inner, Outer, RemoveAt;
    var k := Leader(axis, s);
    RemoveAtSplit(s, k);
    InnerOuterSplit(axis, s[k].rect, RemoveAt(s, k));
  }

  /** Nothing is lost and nothing comes twice. */
  lemma {:induction false} GroupsArrange(axis: Axis, s: seq<Annot>)
    ensures multiset(Joined(Groups(axis, s))) + multiset(Stuck(axis, s)) == multiset(s)
    decreases |s|
  {
    if HasLeader(axis, s) {
      GroupSplit(axis, s);
      GroupsArrange(axis, Remaining(axis, s));
      hide Group, Remaining, HasLeader;
      var rest := Groups(axis, Remaining(axis, s));
      assert ([Group(axis, s)] + rest)[1..] == rest;
    }
  }

  /** The column order always comes to an end with every annotation placed. */
  lemma {:induction false} ColumnsTakeAll(s: seq<Annot>)
    ensures Stuck(Column, s) == [] && multiset(Joined(Groups(Column, s))) == multiset(s)
    decreases |s|
  {
    LeaderInRange(Column, s);
    GroupsArrange(Column, s);
    if s != [] { ColumnsTakeAll(Remaining(Column, s)); }
  }

  predicate NoTop(a: Annot) { a.rect.top <= 0.0 }

  /** The annotations with a positive top. */
  function WithTop(s: seq<Annot>): seq<Annot> {
    if s == [] then [] else (if NoTop(s[0]) then [] else [s[0]]) + WithTop(s[1..])
  }

  function WithoutTop(s: seq<Annot>): seq<Annot> {
    if s == [] then [] else (if NoTop(s[0]) then [s[0]] else []) + WithoutTop(s[1..])
  }

  /** The leaders of the rows, in order. */
  function RowLeaders(s: seq<Annot>): (r: seq<Annot>)
    decreases |s|
  {
    if HasLeader(Row, s) then [s[Leader(Row, s)]] + RowLeaders(Remaining(Row, s)) else []
  }

  /** The annotations that lie inside none of the leaders. */
  function Unswept(leaders: seq<Annot>, s: seq<Annot>): seq<Annot> {
    if leaders == [] then s else Unswept(leaders[1..], Outer(Row, leaders[0].rect, s))
  }

  lemma {:induction false} HighAppend(s: seq<Annot>, t: seq<Annot>)
    ensures WithTop(s + t) == WithTop(s) + WithTop(t) && WithoutTop(s + t) == WithoutTop(s) + WithoutTop(t)
  {
    if s == [] {
      assert s + t == t;
    } else {
      assert (s + t)[0] == s[0] && (s + t)[1..] == s[1..] + t;
      HighAppend(s[1..], t);
      var (high, low) := (if NoTop(s[0]) then [] else [s[0]], if NoTop(s[0]) then [s[0]] else []);
      assert WithTop(s + t) == high + WithTop(s[1..] + t) && WithoutTop(s + t) == low + WithoutTop(s[1..] + t);
      hide WithTop, WithoutTop, NoTop;
      Sequences.Regroup(high, WithTop(s[1..]), WithTop(t));
      Sequences.Regroup(low, WithoutTop(s[1..]), WithoutTop(t));
    }
  }

  lemma OuterCons(leader: Rect, a: Annot, t: seq<Annot>)
    ensures Outer(Row, leader, [a] + t) == (if Inside(Row, leader, a) then [] else [a]) + Outer(Row, leader, t)
  {
    assert ([a] + t)[1..] == t;
  }

  lemma HighCons(a: Annot, t: seq<Annot>)
    ensures WithTop([a] + t) == (if NoTop(a) then [] else [a]) + WithTop(t)
    ensures WithoutTop([a] + t) == (if NoTop(a) then [a] else []) + WithoutTop(t)
  {
    assert ([a] + t)[1..] == t;
  }

  lemma {:induction false} HighOuter(leader: Rect, s: seq<Annot>)
    ensures WithTop(Outer(Row, leader, s)) == Outer(Row, leader, WithTop(s))
    ensures WithoutTop(Outer(Row, leader, s)) == Outer(Row, leader, WithoutTop(s))
  {
    if s != [] {
      hide Inside, NoTop;
      HighOuter(leader, s[1..]);
      OuterCons(leader, s[0], WithTop(s[1..]));
      OuterCons(leader, s[0], WithoutTop(s[1..]));
      HighCons(s[0], Outer(Row, leader, s[1..]));
      assert [] + WithTop(s[1..]) == WithTop(s[1..]) && [] + WithoutTop(s[1..]) == WithoutTop(s[1..]);
      assert [] + Outer(Row, leader, s[1..]) == Outer(Row, leader, s[1..]);
    }
  }

  lemma {:induction false} HighElements(s: seq<Annot>)
    ensures forall a :: a in WithTop(s) <==> a in s && !NoTop(a)
    ensures forall a :: a in WithoutTop(s) <==> a in s && NoTop(a)
  {
    if s != [] { HighElements(s[1..]); }
  }

  lemma HighSplit(s: seq<Annot>, k: nat)
    requires k < |s| && !NoTop(s[k])
    ensures WithTop(s) == WithTop(s[..k]) + [s[k]] + WithTop(s[k + 1..])
    ensures WithTop(RemoveAt(s, k)) == WithTop(s[..k]) + WithTop(s[k + 1..])
    ensures WithoutTop(RemoveAt(s, k)) == WithoutTop(s)
  {
    hide WithTop, WithoutTop, NoTop, Leader;
    var (front, back) := (s[..k], s[k + 1..]);
    SplitMiddle(s, k);
    HighAppend(front, [s[k]] + back);
    HighAppend(front, back);
    HighCons(s[k], back);
    NothingBefore(WithoutTop(back));
    Sequences.Regroup(WithTop(front), [s[k]], WithTop(back));
  }

  lemma SplitMiddle<T>(s: seq<T>, k: nat)
    requires k < |s|
    ensures s == s[..k] + ([s[k]] + s[k + 1..])
  {
  }

  lemma NothingBefore<T>(s: seq<T>)
    ensures [] + s == s
  {
  }

  lemma RemoveMiddle<T>(a: seq<T>, x: T, b: seq<T>)
    ensures RemoveAt(a + [x] + b, |a|) == a + b
  {
  }

  lemma LeadsAmongHigh(s: seq<Annot>, k: nat)
    requires LeadsRow(s, k)
    ensures WithTop(s) == WithTop(s[..k]) + [s[k]] + WithTop(s[k + 1..]) && LeadsRow(WithTop(s), |WithTop(s[..k])|)
  {
    HighSplit(s, k);
    HighElements(s);
    HighElements(s[k + 1..]);
    hide WithTop, NoTop;
    var (high, m) := (WithTop(s), |WithTop(s[..k])|);
    forall j | 0 <= j < |high| ensures high[j].rect.top <= s[k].rect.top { assert high[j] in s; }
    forall j | m < j < |high| ensures high[j].rect.top < s[k].rect.top {
      assert high[j] == WithTop(s[k + 1..])[j - m - 1] && high[j] in s[k + 1..];
    }
  }

  lemma {:induction false} AllLow(s: seq<Annot>)
    requires forall j :: 0 <= j < |s| ==> NoTop(s[j])
    ensures WithTop(s) == []
  {
    if s != [] { AllLow(s[1..]); }
  }

  /** Annotations that cannot lead do not change who leads. */
  lemma LeaderAmongHigh(s: seq<Annot>)
    ensures HasLeader(Row, s) <==> WithTop(s) != []
    ensures HasLeader(Row, s) ==>
      HasLeader(Row, WithTop(s)) && WithTop(s)[Leader(Row, WithTop(s))] == s[Leader(Row, s)]
      && WithTop(RemoveAt(s, Leader(Row, s))) == RemoveAt(WithTop(s), Leader(Row, WithTop(s)))
      && WithoutTop(RemoveAt(s, Leader(Row, s))) == WithoutTop(s)
  {
    RowLeaderIff(s);
    if HasLeader(Row, s) {
      var k := Leader(Row, s);
      LeadsAmongHigh(s, k);
      HighSplit(s, k);
      RowLeaderIff(WithTop(s));
      hide Leader, WithTop, WithoutTop, LeadsRow;
      RemoveMiddle(WithTop(s[..k]), s[k], WithTop(s[k + 1..]));
    } else {
      AllLow(s);
    }
  }

  /** What is left over is exactly the annotations without a positive top that no leader covers, the leaders being
      those of the annotations with a positive top. */
  lemma {:induction false} StuckAre(s: seq<Annot>)
    ensures RowLeaders(s) == RowLeaders(WithTop(s))
    ensures Stuck(Row, s) == Unswept(RowLeaders(WithTop(s)), WithoutTop(s))
    decreases |s|
  {
    LeaderAmongHigh(s);
    if HasLeader(Row, s) {
      var k := Leader(Row, s);
      var rest := Remaining(Row, s);
      HighOuter(s[k].rect, RemoveAt(s, k));
      StuckAre(rest);
      hide Inside, Leader;
      assert Remaining(Row, WithTop(s)) == WithTop(rest);
      assert ([s[k]] + RowLeaders(rest))[1..] == RowLeaders(rest);
      assert WithoutTop(rest) == Outer(Row, s[k].rect, WithoutTop(s));
    } else {
      NoneHigh(s);
    }
  }

  lemma {:induction false} NoneHigh(s: seq<Annot>)
    requires WithTop(s) == []
    ensures WithoutTop(s) == s
  {
    if s != [] {
      assert s == [s[0]] + s[1..];
      NoneHigh(s[1..]);
    }
  }

  lemma {:induction false} UnsweptElements(leaders: seq<Annot>, s: seq<Annot>)
    ensures forall a :: a in Unswept(leaders, s)
              <==> a in s && forall i :: 0 <= i < |leaders| ==> !Inside(Row, leaders[i].rect, a)
  {
    hide Inside;
    if leaders != [] {
      UnsweptElements(leaders[1..], Outer(Row, leaders[0].rect, s));
      OuterElements(Row, leaders[0].rect, s);
      assert leaders == [leaders[0]] + leaders[1..];
    }
  }

  lemma {:induction false} OuterElements(axis: Axis, leader: Rect, s: seq<Annot>)
    ensures forall a :: a in Outer(axis, leader, s) <==> a in s && !Inside(axis, leader, a)
    ensures forall a :: a in Inner(axis, leader, s) <==> a in s && Inside(axis, leader, a)
  {
    if s != [] {
      hide Inside;
      OuterElements(axis, leader, s[1..]);
    }
  }

  /** The row order never ends exactly when some annotation has no positive top and lies inside no leader of the
      annotations that have one. */
  lemma RowsHangIff(s: seq<Annot>)
    ensures Stuck(Row, s) != [] <==>
      exists a :: a in s && NoTop(a)
        && forall i :: 0 <= i < |RowLeaders(WithTop(s))| ==> !Inside(Row, RowLeaders(WithTop(s))[i].rect, a)
  {
    StuckAre(s);
    var leaders := RowLeaders(WithTop(s));
    UnsweptElements(leaders, WithoutTop(s));
    HighElements(s);
    hide Inside, RowLeaders, Unswept, WithoutTop, WithTop, NoTop, Stuck;
    if Stuck(Row, s) != [] {
      assert Stuck(Row, s)[0] in Unswept(leaders, WithoutTop(s));
    }
  }

  /** One annotation below the origin of the page is enough: no row ever takes it. */
  lemma RowBelowOriginHangs()
    ensures var s := [Annot(0, 0, false, Rect(0.0, -20.0, 10.0, -10.0))]; Sorted(Row, s) && Stuck(Row, s) == s
  {
    var s := [Annot(0, 0, false, Rect(0.0, -20.0, 10.0, -10.0))];
    RowLeaderIff(s);
    assert !HasLeader(Row, s);
  }

  /** With every top positive the row order ends and places every annotation. */
  lemma RowsTakeAll(s: seq<Annot>)
    requires forall a :: a in s ==> a.rect.top > 0.0
    ensures Stuck(Row, s) == [] && multiset(Joined(Groups(Row, s))) == multiset(s)
  {
    RowsHangIff(s);
    GroupsArrange(Row, s);
  }

  lemma {:induction false} InnerOuterSorted(axis: Axis, leader: Rect, s: seq<Annot>)
    requires Sorted(axis, s)
    ensures Sorted(axis, Inner(axis, leader, s)) && Sorted(axis, Outer(axis, leader, s))
  {
    if s != [] {
      hide Inside;
      InnerOuterSorted(axis, leader, s[1..]);
      OuterElements(axis, leader, s[1..]);
      forall a | a in s[1..] ensures InOrder(axis, s[0], a) {
        var j :| 0 <= j < |s[1..]| && s[1..][j] == a;
        assert s[j + 1] == a;
      }
      SortedCons(axis, s[0], Inner(axis, leader, s[1..]));
      SortedCons(axis, s[0], Outer(axis, leader, s[1..]));
      assert [] + Inner(axis, leader, s[1..]) == Inner(axis, leader, s[1..]);
      assert [] + Outer(axis, leader, s[1..]) == Outer(axis, leader, s[1..]);
    }
  }

  lemma SortedCons(axis: Axis, a: Annot, t: seq<Annot>)
    requires Sorted(axis, t) && forall b :: b in t ==> InOrder(axis, a, b)
    ensures Sorted(axis, [a] + t)
  {
  }

  /** The leader of a row has the greatest top among what is left, and among equal tops the greatest left. */
  predicate Highest(leader: Annot, a: Annot) {
    a.rect.top < leader.rect.top || (a.rect.top == leader.rect.top && a.rect.left <= leader.rect.left)
  }

  /** A group takes exactly those that lie inside its leader, in sorted order, out of what the groups before it left;
      a row is led by the highest. */
  ghost predicate WellGrouped(axis: Axis, groups: seq<seq<Annot>>, stuck: seq<Annot>) {
    groups == [] ||
    var (group, later) := (groups[0], Joined(groups[1..]) + stuck);
    && group != [] && Sorted(axis, group[1..])
    && (forall a :: a in group[1..] ==> Inside(axis, group[0].rect, a))
    && (forall a :: a in later ==> !Inside(axis, group[0].rect, a))
    && (axis == Row ==> forall a :: a in group || a in later ==> Highest(group[0], a))
    && WellGrouped(axis, groups[1..], stuck)
  }

  lemma LaterAreOuter(axis: Axis, s: seq<Annot>)
    requires HasLeader(axis, s)
    ensures forall a :: a in Joined(Groups(axis, Remaining(axis, s))) + Stuck(axis, Remaining(axis, s))
                   <==> a in Remaining(axis, s)
  {
    hide Groups, Stuck, Remaining;
    var rest := Remaining(axis, s);
    GroupsArrange(axis, rest);
    var (taken, stuck) := (Joined(Groups(axis, rest)), Stuck(axis, rest));
    forall a ensures a in taken + stuck <==> a in rest {
      assert a in rest <==> a in multiset(rest);
      assert a in multiset(taken) + multiset(stuck) <==> a in taken || a in stuck;
    }
  }

  lemma RemoveAtSorted(axis: Axis, s: seq<Annot>, k: nat)
    requires Sorted(axis, s) && k < |s|
    ensures Sorted(axis, RemoveAt(s, k))
  {
    hide InOrder;
  }

  lemma {:induction false} GroupsAreWellGrouped(axis: Axis, s: seq<Annot>)
    requires Sorted(axis, s)
    ensures WellGrouped(axis, Groups(axis, s), Stuck(axis, s))
    decreases |s|
  {
    if HasLeader(axis, s) {
      var k := Leader(axis, s);
      var rest := Remaining(axis, s);
      var (group, groups) := (Group(axis, s), Groups(axis, rest));
      RemoveAtSorted(axis, s, k);
      InnerOuterSorted(axis, s[k].rect, RemoveAt(s, k));
      OuterElements(axis, s[k].rect, RemoveAt(s, k));
      LaterAreOuter(axis, s);
      if axis == Row { LeaderIsHighest(s); }
      GroupsAreWellGrouped(axis, rest);
      assert group[1..] == Inner(axis, s[k].rect, RemoveAt(s, k));
      assert ([group] + groups)[1..] == groups;
      assert forall a :: a in RemoveAt(s, k) ==> a in s;
      hide Inside, Leader, Inner, Outer, Highest, InOrder, Joined;
    }
  }

  lemma LeaderIsHighest(s: seq<Annot>)
    requires Sorted(Row, s) && HasLeader(Row, s)
    ensures forall a :: a in s ==> Highest(s[Leader(Row, s)], a)
  {
    RowLeaderIff(s);
    var k := Leader(Row, s);
    forall a | a in s ensures Highest(s[k], a) {
      var j :| 0 <= j < |s| && s[j] == a;
      assert j < k ==> InOrder(Row, s[j], s[k]);
    }
  }

  /** The last of the least left edges. */
  predicate LeftmostLast(s: seq<Annot>, m: nat) {
    m < |s| && (forall j :: 0 <= j < |s| ==> s[m].rect.left <= s[j].rect.left)
    && (forall j :: m < j < |s| ==> s[m].rect.left < s[j].rect.left)
  }

  lemma {:induction false} ColumnScanKeeps(s: seq<Annot>, i: nat, found: int, left: real)
    requires i <= |s| && left >= 0.0 && forall j :: 0 <= j < i ==> left <= s[j].rect.left
    ensures ColumnScan(s, i, found, left) == found
  {
    if i > 0 { ColumnScanKeeps(s, i - 1, found, left); }
  }

  lemma {:induction false} ColumnScanFinds(s: seq<Annot>, m: nat, i: nat, found: int, left: real)
    requires m < i <= |s| && 0.0 <= s[m].rect.left < left
    requires forall j :: 0 <= j < m ==> s[m].rect.left <= s[j].rect.left
    requires forall j :: m < j < i ==> s[m].rect.left < s[j].rect.left
    ensures ColumnScan(s, i, found, left) == m
    decreases i
  {
    if m == i - 1 {
      ColumnScanKeeps(s, m, m, s[m].rect.left);
    } else if s[i - 1].rect.left < left {
      ColumnScanFinds(s, m, i - 1, i - 1, s[i - 1].rect.left);
    } else {
      ColumnScanFinds(s, m, i - 1, found, left);
    }
  }

  /** Where the negative left edges begin. */
  predicate FirstNegative(s: seq<Annot>, n: nat) {
    n <= |s| && (forall j :: 0 <= j < n ==> s[j].rect.left >= 0.0) && (n < |s| ==> s[n].rect.left < 0.0)
  }

  lemma {:induction false} ScanForgets(s: seq<Annot>, n: nat, i: nat, found: int, left: real) returns (f: int, l: real)
    requires FirstNegative(s, n) && n < i <= |s|
    ensures l < 0.0 && ColumnScan(s, i, found, left) == ColumnScan(s, n, f, l)
    ensures n == 0 ==> f == 0
    decreases i
  {
    if i == n + 1 {
      f := if left < 0.0 then 0 else n;
      l := s[n].rect.left;
    } else if left < 0.0 {
      f, l := ScanForgets(s, n, i - 1, 0, s[i - 1].rect.left);
    } else if s[i - 1].rect.left < left {
      f, l := ScanForgets(s, n, i - 1, i - 1, s[i - 1].rect.left);
    } else {
      f, l := ScanForgets(s, n, i - 1, found, left);
    }
  }

  /** Who leads a column, for every input: of the annotations before the first with a negative left edge, the last
      of the leftmost ones, unless that is the very last of them; then it is the first annotation of all. */
  lemma ColumnLeaderIs(s: seq<Annot>, n: nat, m: nat)
    requires s != [] && FirstNegative(s, n) && (n > 0 ==> LeftmostLast(s[..n], m))
    ensures Leader(Column, s) == if n == 0 || m == n - 1 then 0 else m
  {
    var (f, l) := (-1, -1.0);
    if n < |s| { f, l := ScanForgets(s, n, |s|, -1, -1.0); }
    assert Leader(Column, s) == ColumnScan(s, n, f, l);
    if n > 0 {
      LeftmostOf(s, n, m);
      hide LeftmostLast, FirstNegative;
      assert ColumnScan(s, n, f, l) == ColumnScan(s, n - 1, 0, s[n - 1].rect.left);
      if m == n - 1 { ColumnScanKeeps(s, n - 1, 0, s[n - 1].rect.left); }
      else { ColumnScanFinds(s, m, n - 1, 0, s[n - 1].rect.left); }
    }
  }

  lemma LeftmostOf(s: seq<Annot>, n: nat, m: nat)
    requires n <= |s| && FirstNegative(s, n) && LeftmostLast(s[..n], m)
    ensures m < n && s[m].rect.left >= 0.0 && s[n - 1].rect.left >= 0.0
    ensures forall j :: 0 <= j < n ==> s[m].rect.left <= s[j].rect.left
    ensures forall j :: m < j < n ==> s[m].rect.left < s[j].rect.left
  {
    forall j | 0 <= j < n ensures s[m].rect.left <= s[j].rect.left && (m < j ==> s[m].rect.left < s[j].rect.left) {
      assert s[..n][j] == s[j] && s[..n][m] == s[m];
    }
  }

  predicate Leftmost(s: seq<Annot>, k: int) {
    0 <= k < |s| && forall j :: 0 <= j < |s| ==> s[k].rect.left <= s[j].rect.left
  }

  /** The leader of a column is leftmost exactly when the first annotation is, or when no left edge is negative and
      the very last annotation is not leftmost. */
  lemma ColumnLeaderLeftmostIff(s: seq<Annot>)
    requires s != []
    ensures Leftmost(s, Leader(Column, s)) <==>
      Leftmost(s, 0) ||
      ((forall j :: 0 <= j < |s| ==> s[j].rect.left >= 0.0) && !Leftmost(s, |s| - 1))
  {
    var n := NegativeFrom(s);
    var m := 0;
    if n > 0 { m := FindLeftmost(s[..n]); }
    ColumnLeaderIs(s, n, m);
    if n == |s| {
      assert s[..n] == s;
      assert m < |s| - 1 ==> s[m].rect.left < s[|s| - 1].rect.left;
    } else if n > 0 {
      var k := Leader(Column, s);
      assert s[k].rect.left >= 0.0 > s[n].rect.left;
    }
  }

  lemma {:induction false} NegativeFrom(s: seq<Annot>) returns (n: nat)
    ensures FirstNegative(s, n)
  {
    n := 0;
    if s != [] && s[0].rect.left >= 0.0 {
      var k := NegativeFrom(s[1..]);
      n := k + 1;
      assert forall j :: 0 < j < |s| ==> s[j] == s[1..][j - 1];
      forall j | 0 <= j < n ensures s[j].rect.left >= 0.0 { assert j > 0 ==> s[j] == s[1..][j - 1]; }
    }
  }

  /** Two annotations, the lower one further left: the upper one leads all the same. */
  lemma LeaderNotLeftmost()
    ensures var s := [Annot(0, 0, false, Rect(5.0, 20.0, 9.0, 30.0)), Annot(1, 0, false, Rect(1.0, 0.0, 9.0, 10.0))];
      Sorted(Column, s) && Leader(Column, s) == 0 && s[1].rect.left < s[0].rect.left
  {
    var s := [Annot(0, 0, false, Rect(5.0, 20.0, 9.0, 30.0)), Annot(1, 0, false, Rect(1.0, 0.0, 9.0, 10.0))];
    assert s[..2] == s;
    ColumnLeaderIs(s, 2, 1);
  }

  lemma {:induction false} FindLeftmost(s: seq<Annot>) returns (m: nat)
    requires s != []
    ensures LeftmostLast(s, m)
  {
    m := 0;
    if |s| > 1 {
      var r := FindLeftmost(s[1..]);
      assert forall j :: 0 < j < |s| ==> s[j] == s[1..][j - 1];
      m := if s[1..][r].rect.left <= s[0].rect.left then r + 1 else 0;
    }
  }

  /** Arranging a list without duplicates gives no duplicates. */
  lemma ArrangedDistinct(s: seq<Annot>, t: seq<Annot>)
    requires multiset(s) == multiset(t) && NoRepeats(s)
    ensures NoRepeats(t)
  {
    forall i, j | 0 <= i < j < |t| ensures t[i] != t[j] {
      if t[i] == t[j] {
        Twice(t, i, j);
        Once(s, t[i]);
      }
    }
  }

  lemma Twice(t: seq<Annot>, i: nat, j: nat)
    requires i < j < |t| && t[i] == t[j]
    ensures multiset(t)[t[i]] >= 2
  {
    assert t == t[..i] + [t[i]] + t[i + 1..j] + [t[j]] + t[j + 1..];
  }

  lemma {:induction false} Once(s: seq<Annot>, a: Annot)
    requires NoRepeats(s)
    ensures multiset(s)[a] <= 1
  {
    if s != [] {
      Once(s[1..], a);
      assert s == [s[0]] + s[1..];
      if s[0] == a { assert a !in s[1..]; }
    }
  }

  /** On a list without duplicates, next and previous undo each other. */
  lemma NextAndPrevious(s: seq<Annot>, a: Annot, b: Annot)
    requires NoRepeats(s)
    ensures NextOf(s, a) == Some(b) <==> PreviousOf(s, b) == Some(a)
  {
    PlaceIs(s, a);
    PlaceIs(s, b);
    if NextOf(s, a) == Some(b) { assert Place(s, b) == Place(s, a) + 1; }
    if PreviousOf(s, b) == Some(a) { assert Place(s, a) == Place(s, b) - 1; }
  }

  lemma {:induction false} PlaceIs(s: seq<Annot>, a: Annot)
    ensures Place(s, a) <= |s| && (Place(s, a) < |s| ==> s[Place(s, a)] == a)
    ensures forall j :: 0 <= j < Place(s, a) ==> s[j] != a
  {
    if s != [] && s[0] != a { PlaceIs(s[1..], a); }
  }

  /** The annotations met from a on, at most n of them. */
  function Walk(s: seq<Annot>, a: Annot, n: nat): seq<Annot>
    decreases n
  {
    if n == 0 then []
    else [a] + (var next := NextOf(s, a); if next.None? then [] else Walk(s, next.value, n - 1))
  }

  lemma {:induction false} WalkFrom(s: seq<Annot>, i: nat, n: nat)
    requires NoRepeats(s) && i < |s| && n >= |s| - i
    ensures Walk(s, s[i], n) == s[i..]
    decreases n
  {
    PlaceIs(s, s[i]);
    assert Place(s, s[i]) == i;
    var next := NextOf(s, s[i]);
    assert next == if i + 1 < |s| then Some(s[i + 1]) else None;
    assert Walk(s, s[i], n) == [s[i]] + if next.None? then [] else Walk(s, next.value, n - 1);
    hide NextOf, Place, Walk;
    if i + 1 < |s| {
      WalkFrom(s, i + 1, n - 1);
    }
    Tail(s, i);
  }

  lemma Tail<T>(s: seq<T>, i: nat)
    requires i < |s|
    ensures s[i..] == [s[i]] + s[i + 1..]
  {
  }

  /** From the first annotation on, the tab key comes to every annotation once, in order, and then to none. */
  lemma WalkMeetsAll(s: seq<Annot>, n: nat)
    requires NoRepeats(s) && s != [] && n >= |s|
    ensures Walk(s, s[0], n) == s && NextOf(s, s[|s| - 1]) == None && PreviousOf(s, s[0]) == None
  {
    WalkFrom(s, 0, n);
    PlaceIs(s, s[|s| - 1]);
    PlaceIs(s, s[0]);
  }

  /** A tab order that comes to an end, walked from its first annotation, meets each collected one exactly once. */
  lemma TabOrderMeetsEachOnce(axis: Axis, collected: seq<Annot>, sorted: seq<Annot>)
    requires NoRepeats(collected) && multiset(sorted) == multiset(collected) && Stuck(axis, sorted) == []
    ensures var r := Joined(Groups(axis, sorted));
      && multiset(r) == multiset(collected) && NoRepeats(r)
      && (r != [] ==> Walk(r, r[0], |r|) == r)
  {
    var r := Joined(Groups(axis, sorted));
    GroupsArrange(axis, sorted);
    ArrangedDistinct(collected, r);
    if r != [] { WalkMeetsAll(r, |r|); }
  }

  // ---------- Told by the annotations' own entries and coordinates ----------

  /** Collected are, in the order of the view, the annotations of the subtypes asked for that are no signatures. */
  lemma {:induction false} CollectedAre(view: seq<Annot>, subtypes: seq<nat>) returns (js: seq<nat>)
    ensures PickedAt(Collected(view, subtypes), view, js)
    ensures forall i: nat :: i in js <==> i < |view| && view[i].subtype in subtypes && !view[i].signature
    decreases |view|
  {
    js := [];
    if view != [] {
      var (front, a) := (view[..|view| - 1], view[|view| - 1]);
      js := CollectedAre(front, subtypes);
      assert view == front + [a];
      CollectedAppend(front, a, subtypes);
      PickedMore(Collected(front, subtypes), front, js, a);
      if a.subtype in subtypes && !a.signature { js := js + [|front|]; }
      hide Collected;
    }
  }

  /** The edge that the annotations are sorted by, rising: the left one for rows, the top one downwards for columns. */
  function SortedEdge(axis: Axis, r: Rect): real {
    match axis case Row => r.left case Column => -r.top
  }

  /** Twice the distance of an annotation's centre from the lower or left, and from the upper or right edge of the
      leader: both are positive for the annotations strictly inside. */
  function FromLow(axis: Axis, leader: Rect, r: Rect): real {
    match axis
    case Row => r.top + r.bottom - 2.0 * leader.bottom
    case Column => r.left + r.right - 2.0 * leader.left
  }

  function FromHigh(axis: Axis, leader: Rect, r: Rect): real {
    match axis
    case Row => 2.0 * leader.top - r.top - r.bottom
    case Column => 2.0 * leader.right - r.left - r.right
  }

  lemma InsideIsBetween(axis: Axis, leader: Rect, a: Annot)
    ensures Inside(axis, leader, a) <==> FromLow(axis, leader, a.rect) > 0.0 && FromHigh(axis, leader, a.rect) > 0.0
  {
  }

  lemma {:induction false} WellGroupedAt(axis: Axis, groups: seq<seq<Annot>>, stuck: seq<Annot>, k: nat)
    requires WellGrouped(axis, groups, stuck) && k < |groups|
    ensures var (g, later) := (groups[k], Joined(groups[k + 1..]) + stuck);
      && g != [] && Sorted(axis, g[1..])
      && (forall a :: a in g[1..] ==> Inside(axis, g[0].rect, a))
      && (forall a :: a in later ==> !Inside(axis, g[0].rect, a))
      && (axis == Row ==> forall a :: a in g || a in later ==> Highest(g[0], a))
    decreases k
  {
    hide Inside, Highest, Joined;
    if k > 0 {
      WellGroupedAt(axis, groups[1..], stuck, k - 1);
      assert groups[1..][k..] == groups[k + 1..];
    }
  }

  /** Every arrangement the sort may give is by this edge, and so are the followers of every leader; each follower has
      its centre strictly between the leader's edges, and of what is left to the later groups nothing has. No annotation
      in a row or left to later rows has a top above that of the leader, nor the same and a left edge further right. */
  lemma GroupsInCoordinates(axis: Axis, s: seq<Annot>, k: nat)
    requires Sorted(axis, s) && k < |Groups(axis, s)|
    ensures forall i, j :: 0 <= i < j < |s| ==> SortedEdge(axis, s[i].rect) <= SortedEdge(axis, s[j].rect)
    ensures var g := Groups(axis, s)[k];
      && g != []
      && (forall i :: 1 <= i < |g| ==> FromLow(axis, g[0].rect, g[i].rect) > 0.0 && FromHigh(axis, g[0].rect, g[i].rect) > 0.0)
      && (forall i, j :: 1 <= i < j < |g| ==> SortedEdge(axis, g[i].rect) <= SortedEdge(axis, g[j].rect))
      && (forall a :: a in Joined(Groups(axis, s)[k + 1..]) + Stuck(axis, s) ==>
            FromLow(axis, g[0].rect, a.rect) <= 0.0 || FromHigh(axis, g[0].rect, a.rect) <= 0.0)
      && (axis == Row ==> forall a :: a in g || a in Joined(Groups(axis, s)[k + 1..]) + Stuck(axis, s) ==>
            a.rect.top < g[0].rect.top || (a.rect.top == g[0].rect.top && a.rect.left <= g[0].rect.left))
  {
    GroupsAreWellGrouped(axis, s);
    FollowersInOrder(axis, s);
    WellGroupedAt(axis, Groups(axis, s), Stuck(axis, s), k);
    hide Groups, Stuck, WellGrouped, Sorted;
    var g := Groups(axis, s)[k];
    forall a ensures Inside(axis, g[0].rect, a) <==> FromLow(axis, g[0].rect, a.rect) > 0.0 && FromHigh(axis, g[0].rect, a.rect) > 0.0 {
      InsideIsBetween(axis, g[0].rect, a);
    }
    FollowersInOrder(axis, g[1..]);
    forall i | 1 <= i < |g| ensures Inside(axis, g[0].rect, g[i]) { assert g[i] in g[1..]; }
    forall i, j | 1 <= i < j < |g| ensures SortedEdge(axis, g[i].rect) <= SortedEdge(axis, g[j].rect) {
      assert g[1..][i - 1] == g[i] && g[1..][j - 1] == g[j];
    }
    hide Inside, FromLow, FromHigh, SortedEdge;
  }

  lemma FollowersInOrder(axis: Axis, s: seq<Annot>)
    requires Sorted(axis, s)
    ensures forall i, j :: 0 <= i < j < |s| ==> SortedEdge(axis, s[i].rect) <= SortedEdge(axis, s[j].rect)
  {
    forall i, j | 0 <= i < j < |s| ensures SortedEdge(axis, s[i].rect) <= SortedEdge(axis, s[j].rect) {
      assert InOrder(axis, s[i], s[j]);
    }
  }
}
