/** The /W array of a composite font: its encoder, and the library's reader of such arrays. */
module GlyphWidths {
  import opened Basics
  import opened Sequences

  /** One pair of the widths map, which is iterated by ascending glyph. */
  datatype Glyph = Glyph(cid: nat, width: int)

  predicate Ascending(m: seq<Glyph>) {
    forall i, j :: 0 <= i < j < |m| ==> m[i].cid < m[j].cid
  }

  /** Glyph indices have two bytes. */
  predicate ValidWidths(m: seq<Glyph>) {
    Ascending(m) && forall i :: 0 <= i < |m| ==> m[i].cid <= 0xFFFF
  }

  datatype Item = Num(n: int) | Arr(widths: seq<int>)

  // ---------- The encoder ----------

  /** The end of the stretch through j - 1 of successive glyphs. */
  function StepEnd(m: seq<Glyph>, j: nat): (e: nat)
    requires 0 < j <= |m|
    ensures j <= e <= |m|
    ensures forall k :: j <= k < e ==> m[k].cid == m[j - 1].cid + 1 + k - j
    ensures e < |m| ==> m[e].cid != m[e - 1].cid + 1
    decreases |m| - j
  {
    if j < |m| && m[j].cid == m[j - 1].cid + 1 then StepEnd(m, j + 1) else j
  }

  /** The end of the stretch through j - 1 of successive glyphs of one width. */
  function SameEnd(m: seq<Glyph>, j: nat): (e: nat)
    requires 0 < j <= |m|
    ensures j <= e <= |m|
    ensures forall k :: j <= k < e ==> m[k] == Glyph(m[j - 1].cid + 1 + k - j, m[j - 1].width)
    ensures e < |m| ==> m[e].cid != m[e - 1].cid + 1 || m[e].width != m[j - 1].width
    decreases |m| - j
  {
    if j < |m| && m[j].cid == m[j - 1].cid + 1 && m[j].width == m[j - 1].width then SameEnd(m, j + 1) else j
  }

  function WidthsOf(m: seq<Glyph>): (ws: seq<int>)
    ensures |ws| == |m|
  {
    seq(|m|, i requires 0 <= i < |m| => m[i].width)
  }

  predicate StartsRange(m: seq<Glyph>, i: nat) {
    i + 1 < |m| && m[i + 1].cid == m[i].cid + 1 && m[i + 1].width == m[i].width
  }

  function GroupEnd(m: seq<Glyph>, i: nat): (e: nat)
    requires i < |m|
    ensures i < e <= |m|
  {
    if i + 1 == |m| then i + 1 else if StartsRange(m, i) then SameEnd(m, i + 2) else StepEnd(m, i + 2)
  }

  /** The group that starts at i: first, last and width, or first and a list of widths. */
  function GroupItems(m: seq<Glyph>, i: nat): seq<Item>
    requires i < |m|
  {
    var e := GroupEnd(m, i);
    if StartsRange(m, i) then [Num(m[i].cid), Num(m[e - 1].cid), Num(m[i].width)]
    else [Num(m[i].cid), Arr(WidthsOf(m[i..e]))]
  }

  function Encode(m: seq<Glyph>, i: nat): seq<Item>
    decreases |m| - i
  {
    if i >= |m| then [] else GroupItems(m, i) + Encode(m, GroupEnd(m, i))
  }

  method SkipSameWidth(m: seq<Glyph>, j: nat) returns (i: nat)
    requires 0 < j <= |m|
    ensures i == SameEnd(m, j)
  {
    i := j;
    while i < |m| && m[i].cid == m[i - 1].cid + 1 && m[i].width == m[i - 1].width
      invariant j <= i <= |m| && SameEnd(m, i) == SameEnd(m, j)
    {
      i := i + 1;
    }
  }

  method CollectWidths(m: seq<Glyph>, start: nat) returns (i: nat, curWidths: seq<int>)
    requires start + 1 < |m|
    ensures i == StepEnd(m, start + 2) && curWidths == WidthsOf(m[start..i])
  {
    curWidths := [m[start].width, m[start + 1].width];
    i := start + 2;
    while i < |m| && m[i].cid == m[i - 1].cid + 1
      invariant start + 2 <= i <= |m| && StepEnd(m, i) == StepEnd(m, start + 2)
      invariant curWidths == WidthsOf(m[start..i])
    {
      curWidths := curWidths + [m[i].width];
      i := i + 1;
    }
  }

  lemma OneWidth(m: seq<Glyph>, i: nat)
    requires i < |m|
    ensures WidthsOf(m[i..i + 1]) == [m[i].width]
  {
  }

  /** One pass of the loop: the group that starts at i. */
  method EncodeGroup(m: seq<Glyph>, i: nat) returns (group: seq<Item>, end: nat)
    requires i < |m|
    ensures group == GroupItems(m, i) && end == GroupEnd(m, i)
  {
    hide SameEnd, StepEnd, WidthsOf;
    var ch, w := m[i].cid, m[i].width;
    if i + 1 == |m| {
      group, end := [Num(ch), Arr([w])], i + 1;
      OneWidth(m, i);
    } else if m[i + 1].cid == ch + 1 && m[i + 1].width == w {
      end := SkipSameWidth(m, i + 2);
      group := [Num(ch), Num(m[end - 1].cid), Num(w)];
    } else {
      var curWidths;
      end, curWidths := CollectWidths(m, i);
      group := [Num(ch), Arr(curWidths)];
    }
  }

  /** The loop of LoadCompositeFont that fills the /W array. */
  method EncodeWidths(m: seq<Glyph>) returns (widthsArray: seq<Item>)
    ensures widthsArray == Encode(m, 0)
  {
    hide GroupItems, GroupEnd;
    widthsArray := [];
    var i := 0;
    while i < |m|
      invariant i <= |m| && widthsArray + Encode(m, i) == Encode(m, 0)
    {
      var group, end := EncodeGroup(m, i);
      Regroup(widthsArray, group, Encode(m, end));
      widthsArray := widthsArray + group;
      i := end;
    }
  }

  // ---------- The reader (core/fpdfapi/font/cpdf_cidfont.cpp) ----------

  datatype Metric = Metric(first: int, last: int, width: int)

  function ArrayMetrics(first: int, ws: seq<int>): seq<Metric>
    decreases ws
  {
    if ws == [] then [] else [Metric(first, first, ws[0])] + ArrayMetrics(first + 1, ws[1..])
  }

  /** LoadMetricsArray with one number per metric. The status says how many numbers of a group were read. */
  function LoadMetrics(items: seq<Item>, status: nat, first: int, last: int): seq<Metric> {
    if items == [] then []
    else
      match items[0]
      case Arr(ws) =>
        if status != 1 then []
        else if first > 0x7FFF_FFFF - |ws| then LoadMetrics(items[1..], 0, first, last)
        else ArrayMetrics(first, ws) + LoadMetrics(items[1..], 0, first + |ws|, last)
      case Num(n) =>
        if status == 0 then LoadMetrics(items[1..], 1, n, last)
        else if status == 1 then LoadMetrics(items[1..], 2, first, n)
        else [Metric(first, last, n)] + LoadMetrics(items[1..], 0, first, last)
  }

  /** GetCharWidthF: the first metric that covers the glyph; None stands for the default width. */
  function CharWidth(metrics: seq<Metric>, cid: nat): Option<int> {
    if metrics == [] then None
    else if metrics[0].first <= cid <= metrics[0].last then Some(metrics[0].width)
    else CharWidth(metrics[1..], cid)
  }

  /** The width the map gives a glyph, from index i on. */
  function MapWidth(m: seq<Glyph>, i: nat, cid: nat): Option<int>
    decreases |m| - i
  {
    if i >= |m| then None else if m[i].cid == cid then Some(m[i].width) else MapWidth(m, i + 1, cid)
  }

  // ---------- Decoding the encoded array ----------

  function GroupMetrics(m: seq<Glyph>, i: nat): seq<Metric>
    requires i < |m|
  {
    var e := GroupEnd(m, i);
    if StartsRange(m, i) then [Metric(m[i].cid, m[e - 1].cid, m[i].width)]
    else ArrayMetrics(m[i].cid, WidthsOf(m[i..e]))
  }

  function Metrics(m: seq<Glyph>, i: nat): seq<Metric>
    decreases |m| - i
  {
    if i >= |m| then [] else GroupMetrics(m, i) + Metrics(m, GroupEnd(m, i))
  }

  lemma {:induction false} FewGlyphs(m: seq<Glyph>, i: nat)
    requires ValidWidths(m) && i < |m|
    ensures i <= m[i].cid
  {
    if i > 0 { FewGlyphs(m, i - 1); }
  }

  lemma LoadRangeStep(c: int, d: int, w: int, rest: seq<Item>, first: int, last: int)
    ensures LoadMetrics([Num(c), Num(d), Num(w)] + rest, 0, first, last) == [Metric(c, d, w)] + LoadMetrics(rest, 0, c, d)
  {
    var items := [Num(c), Num(d), Num(w)] + rest;
    assert items[1..] == [Num(d), Num(w)] + rest;
    assert items[1..][1..] == [Num(w)] + rest;
    assert items[1..][1..][1..] == rest;
    assert LoadMetrics(items[1..][1..], 2, c, d) == [Metric(c, d, w)] + LoadMetrics(rest, 0, c, d);
    assert LoadMetrics(items[1..], 1, c, last) == LoadMetrics(items[1..][1..], 2, c, d);
  }

  lemma LoadArrayStep(c: int, ws: seq<int>, rest: seq<Item>, first: int, last: int)
    requires c <= 0x7FFF_FFFF - |ws|
    ensures LoadMetrics([Num(c), Arr(ws)] + rest, 0, first, last)
         == ArrayMetrics(c, ws) + LoadMetrics(rest, 0, c + |ws|, last)
  {
    var items := [Num(c), Arr(ws)] + rest;
    assert items[1..] == [Arr(ws)] + rest;
    assert items[1..][1..] == rest;
  }

  lemma LoadGroup(m: seq<Glyph>, i: nat, rest: seq<Item>, first: int, last: int) returns (first': int, last': int)
    requires ValidWidths(m) && i < |m|
    ensures LoadMetrics(GroupItems(m, i) + rest, 0, first, last) == GroupMetrics(m, i) + LoadMetrics(rest, 0, first', last')
  {
    var e := GroupEnd(m, i);
    if StartsRange(m, i) {
      first', last' := m[i].cid, m[e - 1].cid;
      LoadRangeStep(m[i].cid, m[e - 1].cid, m[i].width, rest, first, last);
    } else {
      first', last' := m[i].cid + (e - i), last;
      FewGlyphs(m, |m| - 1);
      LoadArrayStep(m[i].cid, WidthsOf(m[i..e]), rest, first, last);
    }
  }

  lemma {:induction false} LoadsEncoded(m: seq<Glyph>, i: nat, first: int, last: int)
    requires ValidWidths(m)
    ensures LoadMetrics(Encode(m, i), 0, first, last) == Metrics(m, i)
    decreases |m| - i
  {
    hide GroupItems, GroupMetrics, GroupEnd;
    if i < |m| {
      var first', last' := LoadGroup(m, i, Encode(m, GroupEnd(m, i)), first, last);
      LoadsEncoded(m, GroupEnd(m, i), first', last');
    }
  }

  // ---------- When the array gives the widths back ----------

  /** No group but the last starts at a glyph whose successor is absent. */
  predicate NoLoneStart(m: seq<Glyph>, i: nat)
    decreases |m| - i
  {
    i + 1 >= |m| || (m[i + 1].cid == m[i].cid + 1 && NoLoneStart(m, GroupEnd(m, i)))
  }

  lemma {:induction false} WidthInArray(c: int, ws: seq<int>, rest: seq<Metric>, cid: nat)
    ensures CharWidth(ArrayMetrics(c, ws) + rest, cid)
         == if c <= cid < c + |ws| then Some(ws[cid - c]) else CharWidth(rest, cid)
    decreases ws
  {
    if ws == [] {
      assert ArrayMetrics(c, ws) + rest == rest;
    } else {
      WidthInArray(c + 1, ws[1..], rest, cid);
      assert (ArrayMetrics(c, ws) + rest)[1..] == ArrayMetrics(c + 1, ws[1..]) + rest;
    }
  }

  /** The widths of a group reach up to its end when its glyphs are successive. */
  lemma WidthInGroup(m: seq<Glyph>, i: nat, rest: seq<Metric>, cid: nat)
    requires i < |m| && (i + 1 < |m| ==> m[i + 1].cid == m[i].cid + 1)
    ensures var e := GroupEnd(m, i);
      CharWidth(GroupMetrics(m, i) + rest, cid)
      == if m[i].cid <= cid < m[i].cid + (e - i) then Some(m[i + (cid - m[i].cid)].width) else CharWidth(rest, cid)
    ensures forall k :: i <= k < GroupEnd(m, i) ==> m[k].cid == m[i].cid + (k - i)
  {
    var e := GroupEnd(m, i);
    if StartsRange(m, i) {
      assert (GroupMetrics(m, i) + rest)[1..] == rest;
    } else {
      WidthInArray(m[i].cid, WidthsOf(m[i..e]), rest, cid);
    }
  }

  lemma {:induction false} MapWidthSkips(m: seq<Glyph>, i: nat, e: nat, cid: nat)
    requires Ascending(m) && i < e <= |m| && forall k :: i <= k < e ==> m[k].cid == m[i].cid + (k - i)
    ensures MapWidth(m, i, cid)
         == if m[i].cid <= cid < m[i].cid + (e - i) then Some(m[i + (cid - m[i].cid)].width) else MapWidth(m, e, cid)
    decreases e - i
  {
    if i + 1 < e {
      assert forall k :: i + 1 <= k < e ==> m[k].cid == m[i + 1].cid + (k - (i + 1));
      MapWidthSkips(m, i + 1, e, cid);
    }
    if m[i].cid == cid { NotLater(m, e, cid); }
  }

  lemma {:induction false} NotLater(m: seq<Glyph>, i: nat, cid: nat)
    requires forall k :: i <= k < |m| ==> m[k].cid != cid
    ensures MapWidth(m, i, cid) == None
    decreases |m| - i
  {
    if i < |m| { NotLater(m, i + 1, cid); }
  }

  lemma {:induction false} WidthsComeBack(m: seq<Glyph>, i: nat, cid: nat)
    requires Ascending(m) && NoLoneStart(m, i)
    ensures CharWidth(Metrics(m, i), cid) == MapWidth(m, i, cid)
    decreases |m| - i
  {
    hide GroupMetrics;
    if i < |m| {
      var e := GroupEnd(m, i);
      WidthInGroup(m, i, Metrics(m, e), cid);
      MapWidthSkips(m, i, e, cid);
      if i + 1 < |m| { WidthsComeBack(m, e, cid); }
    }
  }

  lemma {:induction false} LoneStartInvents(m: seq<Glyph>, i: nat) returns (cid: nat)
    requires ValidWidths(m) && !NoLoneStart(m, i)
    ensures cid <= 0xFFFF && CharWidth(Metrics(m, i), cid).Some? && MapWidth(m, 0, cid) == None
    decreases |m| - i
  {
    var e := GroupEnd(m, i);
    if m[i + 1].cid == m[i].cid + 1 {
      cid := LoneStartInvents(m, e);
      WidthInGroup(m, i, Metrics(m, e), cid);
    } else {
      cid := m[i].cid + 1;
      WidthInArray(m[i].cid, WidthsOf(m[i..e]), Metrics(m, e), cid);
      forall k | 0 <= k < |m| ensures m[k].cid != cid {
        if k > i + 1 { assert m[i + 1].cid < m[k].cid; } else if k < i { assert m[k].cid < m[i].cid; }
      }
      NotLater(m, 0, cid);
    }
  }

  predicate RoundTrips(m: seq<Glyph>) {
    forall cid: nat :: cid <= 0xFFFF ==> CharWidth(LoadMetrics(Encode(m, 0), 0, 0, 0), cid) == MapWidth(m, 0, cid)
  }

  lemma RoundTripsIffNoLoneStart(m: seq<Glyph>)
    requires ValidWidths(m)
    ensures RoundTrips(m) <==> NoLoneStart(m, 0)
  {
    LoadsEncoded(m, 0, 0, 0);
    if NoLoneStart(m, 0) {
      forall cid: nat | cid <= 0xFFFF
        ensures CharWidth(LoadMetrics(Encode(m, 0), 0, 0, 0), cid) == MapWidth(m, 0, cid)
      {
        WidthsComeBack(m, 0, cid);
      }
    } else {
      var cid := LoneStartInvents(m, 0);
    }
  }

  // ---------- The same condition on the widths alone ----------

  /** The first glyph of the stretch of successive glyphs that contains g. */
  function StretchStart(m: seq<Glyph>, g: nat): (s: nat)
    requires g < |m|
    ensures s <= g
    ensures forall k :: s <= k <= g ==> m[k].cid + (g - k) == m[g].cid
    ensures s > 0 ==> m[s].cid != m[s - 1].cid + 1
  {
    if g > 0 && m[g].cid == m[g - 1].cid + 1 then StretchStart(m, g - 1) else g
  }

  /** The width of j also occurs right before it, from a on, or right after it. */
  predicate Paired(m: seq<Glyph>, a: nat, j: nat)
    requires a <= j && j + 1 < |m|
  {
    (j > a && m[j - 1].width == m[j].width) || m[j + 1].width == m[j].width
  }

  /** From a to g every width comes at least twice in a row, except the last, which comes once. */
  predicate PairsThenSingle(m: seq<Glyph>, a: nat, g: nat)
    requires a <= g < |m|
  {
    (g > a ==> m[g - 1].width != m[g].width) && forall j :: a <= j < g ==> Paired(m, a, j)
  }

  /** A stretch of successive glyphs, not the last one, whose widths come in blocks of two or more up to a single one. */
  predicate LoneTail(m: seq<Glyph>, g: nat)
    requires g + 1 < |m|
  {
    m[g + 1].cid != m[g].cid + 1 && PairsThenSingle(m, StretchStart(m, g), g)
  }

  /** No lone tail is seen from the group that starts at i. */
  predicate NoTailFrom(m: seq<Glyph>, i: nat) {
    forall g :: i <= g && g + 1 < |m| && m[g + 1].cid != m[g].cid + 1 ==>
      !PairsThenSingle(m, if StretchStart(m, g) < i then i else StretchStart(m, g), g)
  }

  lemma {:induction false} StretchStartAfter(m: seq<Glyph>, e: nat, g: nat)
    requires e <= g < |m| && (e == 0 || m[e].cid != m[e - 1].cid + 1)
    ensures StretchStart(m, g) >= e
  {
    if g > e { StretchStartAfter(m, e, g - 1); }
  }

  lemma {:induction false} StretchStartBefore(m: seq<Glyph>, i: nat, g: nat)
    requires i <= g < |m| && forall k :: i <= k <= g ==> m[k].cid + (g - k) == m[g].cid
    ensures StretchStart(m, g) <= i
  {
    if g > i {
      assert m[g - 1].cid + 1 == m[g].cid;
      StretchStartBefore(m, i, g - 1);
    }
  }

  /** A block of equal widths at the front can be dropped. */
  lemma DropBlock(m: seq<Glyph>, i: nat, e: nat, g: nat)
    requires i + 2 <= e <= g && g + 1 < |m|
    requires forall k :: i <= k < e ==> m[k].width == m[i].width
    requires m[e].width != m[i].width
    ensures PairsThenSingle(m, i, g) <==> PairsThenSingle(m, e, g)
  {
    assert m[e - 1].width == m[i].width;
    forall j | e <= j < g ensures Paired(m, i, j) <==> Paired(m, e, j) {
    }
    forall j | i <= j < e ensures Paired(m, i, j) {
      if j > i { assert m[j - 1].width == m[j].width; } else { assert m[j + 1].width == m[j].width; }
    }
  }

  lemma TailAfterRange(m: seq<Glyph>, i: nat, g: nat)
    requires StartsRange(m, i) && i <= g && g + 1 < |m| && m[g + 1].cid != m[g].cid + 1
    ensures var (e, s) := (GroupEnd(m, i), StretchStart(m, g));
      if g < e then !PairsThenSingle(m, if s < i then i else s, g)
      else PairsThenSingle(m, if s < i then i else s, g) <==> PairsThenSingle(m, if s < e then e else s, g)
  {
    var (e, s) := (GroupEnd(m, i), StretchStart(m, g));
    assert forall k :: i <= k < e ==> m[k] == Glyph(m[i].cid + (k - i), m[i].width);
    if g < e {
      assert g == e - 1;
      StretchStartBefore(m, i, g);
      assert m[g - 1].width == m[g].width;
    } else if s < e {
      assert s <= i;
      assert m[e].cid == m[e - 1].cid + 1;
      DropBlock(m, i, e, g);
    }
  }

  lemma TailAfterArray(m: seq<Glyph>, i: nat, g: nat)
    requires i + 1 < |m| && m[i + 1].cid == m[i].cid + 1 && !StartsRange(m, i)
    requires i <= g && g + 1 < |m| && m[g + 1].cid != m[g].cid + 1
    ensures var (e, s) := (GroupEnd(m, i), StretchStart(m, g));
      if g < e then !PairsThenSingle(m, if s < i then i else s, g) else s >= e
  {
    var e := GroupEnd(m, i);
    assert forall k :: i <= k < e ==> m[k].cid == m[i].cid + (k - i);
    if g < e {
      assert g == e - 1;
      StretchStartBefore(m, i, g);
      assert !Paired(m, i, i);
    } else {
      StretchStartAfter(m, e, g);
    }
  }

  lemma {:induction false} NoLoneStartIsNoTail(m: seq<Glyph>, i: nat)
    requires Ascending(m)
    ensures NoLoneStart(m, i) <==> NoTailFrom(m, i)
    decreases |m| - i
  {
    hide PairsThenSingle, StretchStart;
    if i + 1 < |m| {
      var e := GroupEnd(m, i);
      if m[i + 1].cid != m[i].cid + 1 {
        assert !NoTailFrom(m, i) by { TailAtOnce(m, i); }
      } else {
        NoLoneStartIsNoTail(m, e);
        forall g | i <= g && g + 1 < |m| && m[g + 1].cid != m[g].cid + 1
          ensures var s := StretchStart(m, g);
            if g < e then !PairsThenSingle(m, if s < i then i else s, g)
            else PairsThenSingle(m, if s < i then i else s, g) <==> PairsThenSingle(m, if s < e then e else s, g)
        {
          if StartsRange(m, i) { TailAfterRange(m, i, g); } else { TailAfterArray(m, i, g); }
        }
      }
    }
  }

  lemma TailAtOnce(m: seq<Glyph>, i: nat)
    requires i + 1 < |m| && m[i + 1].cid != m[i].cid + 1
    ensures PairsThenSingle(m, if StretchStart(m, i) < i then i else StretchStart(m, i), i)
  {
  }

  /** The widths come back, for every glyph, exactly when no stretch of successive glyphs before the last has a lone tail. */
  lemma RoundTripsIff(m: seq<Glyph>)
    requires ValidWidths(m)
    ensures RoundTrips(m) <==> forall g :: 0 <= g && g + 1 < |m| ==> !LoneTail(m, g)
  {
    hide RoundTrips, PairsThenSingle;
    RoundTripsIffNoLoneStart(m);
    NoLoneStartIsNoTail(m, 0);
    forall g | 0 <= g && g + 1 < |m| && m[g + 1].cid != m[g].cid + 1
      ensures LoneTail(m, g) <==> PairsThenSingle(m, if StretchStart(m, g) < 0 then 0 else StretchStart(m, g), g)
    {
    }
  }

  /** Glyphs 1 and 3, without 2: the array gives glyph 2 the width of glyph 3. */
  lemma GapBreaksWidths()
    ensures var m := [Glyph(1, 500), Glyph(3, 600)]; ValidWidths(m) && !RoundTrips(m)
  {
    var m := [Glyph(1, 500), Glyph(3, 600)];
    assert LoneTail(m, 0);
    RoundTripsIff(m);
  }
}
