/** The compression of a charcode-to-unicode multimap into the three tables of a ToUnicode CMap. */
module ToUnicode {
  import opened OrderedMaps
  import opened Sequences

  datatype Entry = Entry(code: nat, uni: nat)

  /** A multimap is iterated by ascending code; equal codes keep their insertion order. */
  predicate Sorted(m: seq<Entry>) {
    forall i, j :: 0 <= i < j < |m| ==> m[i].code <= m[j].code
  }

  predicate UniqueCodes(m: seq<Entry>) {
    forall i, j :: 0 <= i < j < |m| ==> m[i].code < m[j].code
  }

  predicate DistinctUnicodes(m: seq<Entry>) {
    forall i, j :: 0 <= i < j < |m| ==> m[i].uni != m[j].uni
  }

  /** char_to_uni, map_range_vector and map_range. */
  datatype Tables = Tables(
    chars: seq<(nat, nat)>,
    lists: seq<((nat, nat), seq<nat>)>,
    runs: seq<((nat, nat), nat)>)

  /** What the tables mean: char_to_uni maps one code, a list maps its codes one by one,
      and a run maps its codes to successive unicodes. */
  predicate Decodes(t: Tables, c: nat, u: nat) {
    || (c, u) in t.chars
    || (exists r :: r in t.lists && ListDecodes(r, c, u))
    || (exists r :: r in t.runs && RunDecodes(r, c, u))
  }

  predicate ListDecodes(r: ((nat, nat), seq<nat>), c: nat, u: nat) {
    r.0.0 <= c <= r.0.1 && c - r.0.0 < |r.1| && r.1[c - r.0.0] == u
  }

  predicate RunDecodes(r: ((nat, nat), nat), c: nat, u: nat) {
    r.0.0 <= c <= r.0.1 && r.1 + (c - r.0.0) == u
  }

  // ---------- The specification: cutting the multimap into groups ----------

  datatype Group =
    | Single(code: nat, uni: nat)
    | List(lo: nat, unis: seq<nat>)
    | Run(lo: nat, len: nat, uni: nat)
  {
    function First(): nat { if Single? then code else lo }

    function Last(): int {
      match this
      case Single(c, _) => c
      case List(lo, us) => lo + |us| - 1
      case Run(lo, n, _) => lo + n - 1
    }

    function Expand(): seq<Entry> {
      match this
      case Single(c, u) => [Entry(c, u)]
      case List(lo, us) => seq(|us|, i requires 0 <= i < |us| => Entry(lo + i, us[i]))
      case Run(lo, n, u) => seq(n, i requires 0 <= i < n => Entry(lo + i, u + i))
    }

    /** A range covers at least two codes, all with the same high byte. */
    predicate Valid() {
      !Single? ==> First() < Last() && First() / 256 == Last() / 256
    }
  }

  function Flat(gs: seq<Group>): seq<Entry> {
    if gs == [] then [] else gs[0].Expand() + Flat(gs[1..])
  }

  /** The end of the longest stretch of successive codes that contains j - 1 and stops before stop. */
  function ChainEnd(m: seq<Entry>, j: nat, stop: nat): (e: nat)
    requires 0 < j <= |m|
    ensures j <= e <= |m| && (e <= stop || e == j)
    ensures forall k :: j <= k < e ==> m[k].code == m[j - 1].code + 1 + k - j
    ensures e < |m| && e < stop ==> m[e].code != m[e - 1].code + 1
    decreases |m| - j
  {
    if j < stop && j < |m| && m[j].code == m[j - 1].code + 1 then ChainEnd(m, j + 1, stop) else j
  }

  /** The same for successive codes with successive unicodes. */
  function RunEnd(m: seq<Entry>, j: nat, stop: nat): (e: nat)
    requires 0 < j <= |m|
    ensures j <= e <= |m| && (e <= stop || e == j)
    ensures forall k :: j <= k < e ==> m[k] == Entry(m[j - 1].code + 1 + k - j, m[j - 1].uni + 1 + k - j)
    ensures e < |m| && e < stop ==> m[e].code != m[e - 1].code + 1 || m[e].uni != m[e - 1].uni + 1
    decreases |m| - j
  {
    if j < stop && j < |m| && m[j].code == m[j - 1].code + 1 && m[j].uni == m[j - 1].uni + 1
    then RunEnd(m, j + 1, stop) else j
  }

  function Unicodes(m: seq<Entry>): (us: seq<nat>)
  {
    seq(|m|, i requires 0 <= i < |m| => m[i].uni)
  }

  /** The first index in the 256-code block that follows the block of entry i, if codes were successive. */
  function BlockStop(m: seq<Entry>, i: nat): nat
    requires i < |m|
  {
    i + 256 - m[i].code % 256
  }

  /** The groups that one pass of the loop emits at entry i. */
  function Cut(m: seq<Entry>, i: nat): (gs: seq<Group>)
    requires i < |m|
    ensures |gs| > 0
  {
    if i + 1 == |m| || m[i + 1].code != m[i].code + 1 then [Single(m[i].code, m[i].uni)]
    else if m[i + 1].code % 256 == 0 then
      [Single(m[i].code, m[i].uni), Single(m[i + 1].code, m[i + 1].uni)]
    else if m[i].uni + 1 != m[i + 1].uni then
      [List(m[i].code, Unicodes(m[i..ChainEnd(m, i + 2, BlockStop(m, i))]))]
    else
      [Run(m[i].code, RunEnd(m, i + 2, BlockStop(m, i)) - i, m[i].uni)]
  }

  function CutEnd(m: seq<Entry>, i: nat): (j: nat)
    requires i < |m|
    ensures i < j <= |m|
  {
    if i + 1 == |m| || m[i + 1].code != m[i].code + 1 then i + 1
    else if m[i + 1].code % 256 == 0 then i + 2
    else if m[i].uni + 1 != m[i + 1].uni then ChainEnd(m, i + 2, BlockStop(m, i))
    else RunEnd(m, i + 2, BlockStop(m, i))
  }

  function GroupsFrom(m: seq<Entry>, i: nat): seq<Group>
    decreases |m| - i
  {
    if i >= |m| then [] else Cut(m, i) + GroupsFrom(m, CutEnd(m, i))
  }

  function Groups(m: seq<Entry>): seq<Group> {
    GroupsFrom(m, 0)
  }

  function Insert(t: Tables, g: Group): Tables {
    match g
    case Single(c, u) => t.(chars := Put(t.chars, c, u, NatLess))
    case List(lo, us) => if us == [] then t else t.(lists := Put(t.lists, (lo, lo + |us| - 1), us, PairLess))
    case Run(lo, n, u) => if n == 0 then t else t.(runs := Put(t.runs, (lo, lo + n - 1), u, PairLess))
  }

  function InsertAll(t: Tables, gs: seq<Group>): Tables
    decreases gs
  {
    if gs == [] then t else InsertAll(Insert(t, gs[0]), gs[1..])
  }

  function TablesOf(gs: seq<Group>): Tables {
    InsertAll(Tables([], [], []), gs)
  }

  function Compress(m: seq<Entry>): Tables {
    TablesOf(Groups(m))
  }

  // ---------- The loop ----------

  lemma {:induction false} InsertAllConcat(t: Tables, a: seq<Group>, b: seq<Group>)
    ensures InsertAll(t, a + b) == InsertAll(InsertAll(t, a), b)
    decreases a
  {
    if a == [] {
      assert a + b == b;
    } else {
      InsertAllConcat(Insert(t, a[0]), a[1..], b);
      assert (a + b)[1..] == a[1..] + b;
    }
  }

  lemma InsertOne(t: Tables, g: Group)
    ensures InsertAll(t, [g]) == Insert(t, g)
  {
  }

  lemma InsertTwo(t: Tables, g: Group, h: Group)
    ensures InsertAll(t, [g, h]) == Insert(Insert(t, g), h)
  {
    assert [g, h] == [g] + [h];
    InsertAllConcat(t, [g], [h]);
  }

  /** One pass of the loop, from entry i to entry j, leaves the final tables the same. */
  lemma PassKeepsResult(t: Tables, m: seq<Entry>, i: nat, t': Tables, j: nat)
    requires i < |m| && t' == InsertAll(t, Cut(m, i)) && j == CutEnd(m, i)
    ensures InsertAll(t', GroupsFrom(m, j)) == InsertAll(t, GroupsFrom(m, i))
  {
    InsertAllConcat(t, Cut(m, i), GroupsFrom(m, j));
  }

  lemma PassWithList(t: Tables, m: seq<Entry>, i: nat, end: nat, last: nat, unis: seq<nat>)
    requires i + 1 < |m| && m[i + 1].code == m[i].code + 1 && m[i + 1].code % 256 != 0
    requires m[i].uni + 1 != m[i + 1].uni && end == ChainEnd(m, i + 2, BlockStop(m, i))
    requires unis == Unicodes(m[i..end]) && last == m[i].code + |unis| - 1
    ensures InsertAll(t.(lists := Put(t.lists, (m[i].code, last), unis, PairLess)), GroupsFrom(m, end))
         == InsertAll(t, GroupsFrom(m, i))
  {
    assert Cut(m, i) == [List(m[i].code, unis)];
    InsertOne(t, List(m[i].code, unis));
    PassKeepsResult(t, m, i, Insert(t, List(m[i].code, unis)), end);
  }

  lemma PassWithRun(t: Tables, m: seq<Entry>, i: nat, end: nat, last: nat)
    requires i + 1 < |m| && m[i + 1].code == m[i].code + 1 && m[i + 1].code % 256 != 0
    requires m[i].uni + 1 == m[i + 1].uni && end == RunEnd(m, i + 2, BlockStop(m, i))
    requires last == m[i].code + (end - i) - 1
    ensures InsertAll(t.(runs := Put(t.runs, (m[i].code, last), m[i].uni, PairLess)), GroupsFrom(m, end))
         == InsertAll(t, GroupsFrom(m, i))
  {
    assert Cut(m, i) == [Run(m[i].code, end - i, m[i].uni)];
    InsertOne(t, Run(m[i].code, end - i, m[i].uni));
    PassKeepsResult(t, m, i, Insert(t, Run(m[i].code, end - i, m[i].uni)), end);
  }

  lemma NextInBlock(c: nat)
    requires (c + 1) % 256 != 0
    ensures 255 - (c + 1) % 256 == 254 - c % 256
  {
  }

  lemma UnicodesNext(m: seq<Entry>, i: nat, j: nat)
    requires i <= j < |m|
    ensures Unicodes(m[i..j + 1]) == Unicodes(m[i..j]) + [m[j].uni]
  {
  }

  /** The inner loop of the list form: lengthens the list while the codes stay successive. */
  method ExtendList(m: seq<Entry>, start: nat) returns (i: nat, curCode: nat, unis: seq<nat>)
    requires start + 1 < |m| && m[start + 1].code == m[start].code + 1 && m[start + 1].code % 256 != 0
    ensures i == ChainEnd(m, start + 2, BlockStop(m, start))
    ensures unis == Unicodes(m[start..i]) && curCode == m[start].code + |unis| - 1
  {
    curCode := m[start + 1].code;
    var maxExtra := 255 - curCode % 256;
    NextInBlock(m[start].code);
    ghost var stop := BlockStop(m, start);
    assert maxExtra == stop - start - 2;
    unis := [m[start].uni, m[start + 1].uni];
    i := start + 2;
    var extra := 0;
    while extra < maxExtra && i < |m| && curCode + 1 == m[i].code
      invariant i == start + 2 + extra <= |m| && extra <= maxExtra
      invariant curCode == m[i - 1].code == m[start].code + 1 + extra
      invariant unis == Unicodes(m[start..i])
      invariant ChainEnd(m, i, stop) == ChainEnd(m, start + 2, stop)
    {
      UnicodesNext(m, start, i);
      curCode := curCode + 1;
      unis := unis + [m[i].uni];
      i := i + 1;
      extra := extra + 1;
    }
  }

  /** The inner loop of the run form: lengthens the run while codes and unicodes stay successive. */
  method ExtendRun(m: seq<Entry>, start: nat) returns (i: nat, curCode: nat)
    requires start + 1 < |m| && m[start + 1].code == m[start].code + 1 && m[start + 1].code % 256 != 0
    requires m[start + 1].uni == m[start].uni + 1
    ensures i == RunEnd(m, start + 2, BlockStop(m, start)) && curCode == m[start].code + (i - start) - 1
  {
    curCode := m[start + 1].code;
    var curUni := m[start + 1].uni;
    var maxExtra := 255 - curCode % 256;
    NextInBlock(m[start].code);
    ghost var stop := BlockStop(m, start);
    assert maxExtra == stop - start - 2;
    i := start + 2;
    var extra := 0;
    while extra < maxExtra && i < |m| && curCode + 1 == m[i].code && curUni + 1 == m[i].uni
      invariant i == start + 2 + extra <= |m| && extra <= maxExtra
      invariant curCode == m[i - 1].code == m[start].code + 1 + extra && curUni == m[i - 1].uni
      invariant RunEnd(m, i, stop) == RunEnd(m, start + 2, stop)
    {
      curCode := curCode + 1;
      curUni := curUni + 1;
      i := i + 1;
      extra := extra + 1;
    }
  }

  /** The first half of LoadUnicode: fills the three maps while advancing one iterator. */
  method LoadUnicode(toUnicode: seq<Entry>)
    returns (chars: seq<(nat, nat)>, lists: seq<((nat, nat), seq<nat>)>, runs: seq<((nat, nat), nat)>)
    ensures Tables(chars, lists, runs) == Compress(toUnicode)
  {
    chars, lists, runs := [], [], [];
    var i := 0;
    while i < |toUnicode|
      invariant i <= |toUnicode|
      invariant InsertAll(Tables(chars, lists, runs), GroupsFrom(toUnicode, i)) == Compress(toUnicode)
    {
      ghost var before, start := Tables(chars, lists, runs), i;
      var firstCode, firstUni := toUnicode[i].code, toUnicode[i].uni;
      if i + 1 == |toUnicode| || firstCode + 1 != toUnicode[i + 1].code {
        chars := Put(chars, firstCode, firstUni, NatLess);
        i := i + 1;
        InsertOne(before, Single(firstCode, firstUni));
        PassKeepsResult(before, toUnicode, start, Tables(chars, lists, runs), i);
      } else if toUnicode[i + 1].code % 256 == 0 {
        chars := Put(chars, firstCode, firstUni, NatLess);
        chars := Put(chars, toUnicode[i + 1].code, toUnicode[i + 1].uni, NatLess);
        i := i + 2;
        InsertTwo(before, Cut(toUnicode, start)[0], Cut(toUnicode, start)[1]);
        PassKeepsResult(before, toUnicode, start, Tables(chars, lists, runs), i);
      } else if firstUni + 1 != toUnicode[i + 1].uni {
        var end, curCode, unis := ExtendList(toUnicode, i);
        lists := Put(lists, (firstCode, curCode), unis, PairLess);
        i := end;
        PassWithList(before, toUnicode, start, end, curCode, unis);
      } else {
        var end, curCode := ExtendRun(toUnicode, i);
        runs := Put(runs, (firstCode, curCode), firstUni, PairLess);
        i := end;
        PassWithRun(before, toUnicode, start, end, curCode);
      }
    }
  }

  // ---------- What the groups are ----------

  lemma {:induction false} FlatConcat(a: seq<Group>, b: seq<Group>)
    ensures Flat(a + b) == Flat(a) + Flat(b)
  {
    if a == [] {
      assert a + b == b;
    } else {
      FlatConcat(a[1..], b);
      assert (a + b)[0] == a[0] && (a + b)[1..] == a[1..] + b;
      assert Flat(a + b) == a[0].Expand() + Flat(a[1..] + b);
      hide Flat, Group.Expand;
      Regroup(a[0].Expand(), Flat(a[1..]), Flat(b));
    }
  }

  lemma CutExpands(m: seq<Entry>, i: nat)
    requires i < |m|
    ensures Flat(Cut(m, i)) == m[i..CutEnd(m, i)]
  {
    var gs := Cut(m, i);
    assert gs[1..] == if |gs| == 2 then [gs[1]] else [];
    if |gs| == 2 {
      assert Flat(gs) == gs[0].Expand() + (gs[1].Expand() + Flat([gs[1]][1..]));
    } else {
      assert Flat(gs) == gs[0].Expand() + [];
      assert |gs[0].Expand()| == CutEnd(m, i) - i;
    }
  }

  /** Cutting loses nothing: the groups, expanded in order, are the multimap, duplicates included. */
  lemma {:induction false} GroupsExpandToInput(m: seq<Entry>, i: nat)
    requires i <= |m|
    ensures Flat(GroupsFrom(m, i)) == m[i..]
    decreases |m| - i
  {
    if i < |m| {
      CutExpands(m, i);
      GroupsExpandToInput(m, CutEnd(m, i));
      FlatConcat(Cut(m, i), GroupsFrom(m, CutEnd(m, i)));
    }
  }

  lemma BlockBound(c: nat, n: nat)
    requires 2 <= n <= 256 - c % 256
    ensures c / 256 == (c + n - 1) / 256
  {
  }

  lemma CutShape(m: seq<Entry>, i: nat)
    requires i < |m| && Sorted(m)
    ensures forall g :: g in Cut(m, i) ==> g.Valid() && m[i].code <= g.First() <= g.Last() <= m[CutEnd(m, i) - 1].code
    ensures |Cut(m, i)| == 2 ==> Cut(m, i)[0].Last() <= Cut(m, i)[1].First()
  {
    var n := CutEnd(m, i) - i;
    assert n == 2 || |Cut(m, i)| == 1;
    if n >= 2 && |Cut(m, i)| == 1 {
      NextInBlock(m[i].code);
      BlockBound(m[i].code, n);
    }
  }

  /** Every range has at least two codes and stays inside one block of 256, as the CMap format
      demands, and the groups follow each other in code order. */
  predicate WellCut(gs: seq<Group>) {
    && (forall i :: 0 <= i < |gs| ==> gs[i].Valid() && gs[i].First() <= gs[i].Last())
    && (forall i, j :: 0 <= i < j < |gs| ==> gs[i].Last() <= gs[j].First())
  }

  lemma {:induction false} GroupsWellCut(m: seq<Entry>, i: nat)
    requires i <= |m| && Sorted(m)
    ensures WellCut(GroupsFrom(m, i))
    ensures i < |m| ==> forall g :: g in GroupsFrom(m, i) ==> m[i].code <= g.First()
    decreases |m| - i
  {
    if i < |m| {
      CutShape(m, i);
      GroupsWellCut(m, CutEnd(m, i));
      var head, rest := Cut(m, i), GroupsFrom(m, CutEnd(m, i));
      assert forall k :: 0 <= k < |head| ==> head[k] in head;
      assert forall k :: 0 <= k < |rest| ==> rest[k] in rest;
      var gs := head + rest;
      forall k, l | 0 <= k < l < |gs| ensures gs[k].Last() <= gs[l].First() {
        if l >= |head| { assert gs[l] in rest; }
      }
    }
  }

  // ---------- What insertion into the ordered maps keeps ----------

  function ListsOf(gs: seq<Group>): seq<((nat, nat), seq<nat>)> {
    if gs == [] then []
    else (if gs[0].List? && gs[0].unis != [] then [((gs[0].lo, gs[0].lo + |gs[0].unis| - 1), gs[0].unis)] else [])
         + ListsOf(gs[1..])
  }

  function RunsOf(gs: seq<Group>): seq<((nat, nat), nat)> {
    if gs == [] then []
    else (if gs[0].Run? && gs[0].len != 0 then [((gs[0].lo, gs[0].lo + gs[0].len - 1), gs[0].uni)] else [])
         + RunsOf(gs[1..])
  }

  function SinglesOf(gs: seq<Group>): seq<(nat, nat)> {
    if gs == [] then []
    else (if gs[0].Single? then [(gs[0].code, gs[0].uni)] else []) + SinglesOf(gs[1..])
  }

  /** All ranges stored so far start below c. */
  predicate RangesBelow(t: Tables, c: nat) {
    && (forall i :: 0 <= i < |t.lists| ==> t.lists[i].0.0 < c)
    && (forall i :: 0 <= i < |t.runs| ==> t.runs[i].0.0 < c)
  }

  lemma InsertRange(t: Tables, g: Group, rest: seq<Group>, c: nat)
    requires g.Valid() && g.First() <= g.Last() <= c && RangesBelow(t, g.First())
    ensures RangesBelow(Insert(t, g), c)
    ensures Insert(t, g).lists + ListsOf(rest) == t.lists + ListsOf([g] + rest)
    ensures Insert(t, g).runs + RunsOf(rest) == t.runs + RunsOf([g] + rest)
  {
    assert ([g] + rest)[1..] == rest;
    match g {
      case Single(_, _) =>
      case List(lo, us) => PutAfterAll(t.lists, (lo, lo + |us| - 1), us, PairLess);
      case Run(lo, n, u) => PutAfterAll(t.runs, (lo, lo + n - 1), u, PairLess);
    }
  }

  lemma {:induction false} InsertAllRanges(t: Tables, gs: seq<Group>)
    requires WellCut(gs) && (gs != [] ==> RangesBelow(t, gs[0].First()))
    ensures InsertAll(t, gs).lists == t.lists + ListsOf(gs)
    ensures InsertAll(t, gs).runs == t.runs + RunsOf(gs)
    decreases gs
  {
    if gs != [] {
      var g, rest := gs[0], gs[1..];
      assert gs == [g] + rest;
      InsertRange(t, g, rest, if rest == [] then g.Last() else rest[0].First());
      InsertAllRanges(Insert(t, g), rest);
    }
  }

  /** No range entry is ever overwritten, whatever the duplicates. */
  lemma RangesKept(m: seq<Entry>)
    requires Sorted(m)
    ensures Compress(m).lists == ListsOf(Groups(m)) && Compress(m).runs == RunsOf(Groups(m))
  {
    GroupsWellCut(m, 0);
    InsertAllRanges(Tables([], [], []), Groups(m));
  }

  predicate KeysIncrease(m: seq<(nat, nat)>) {
    forall i, j :: 0 <= i < j < |m| ==> m[i].0 < m[j].0
  }

  lemma {:induction false} PutMember(m: seq<(nat, nat)>, k: nat, v: nat)
    requires KeysIncrease(m)
    ensures KeysIncrease(Put(m, k, v, NatLess))
    ensures forall p :: p in Put(m, k, v, NatLess) <==> p == (k, v) || (p.0 != k && p in m)
  {
    if m != [] {
      FirstIsLeast(m);
      if m[0].0 < k {
        PutMember(m[1..], k, v);
        var rest := Put(m[1..], k, v, NatLess);
        assert Put(m, k, v, NatLess) == [m[0]] + rest;
        hide Put;
        PutFirst(m[0], rest);
      } else {
        hide Put;
      }
    }
  }

  lemma FirstIsLeast(m: seq<(nat, nat)>)
    requires m != [] && KeysIncrease(m)
    ensures forall p :: p in m[1..] ==> m[0].0 < p.0
    ensures forall p :: p in m <==> p == m[0] || p in m[1..]
    ensures KeysIncrease(m[1..])
  {
    assert m == [m[0]] + m[1..];
  }

  lemma PutFirst(p: (nat, nat), rest: seq<(nat, nat)>)
    requires KeysIncrease(rest) && forall q :: q in rest ==> p.0 < q.0
    ensures KeysIncrease([p] + rest)
  {
    assert forall j :: 0 <= j < |rest| ==> rest[j] in rest;
  }

  predicate HasSingle(gs: seq<Group>, c: nat) {
    gs != [] && ((gs[0].Single? && gs[0].code == c) || HasSingle(gs[1..], c))
  }

  /** The pair p is a single, and the last one among the singles of its code. */
  predicate IsLastSingle(gs: seq<Group>, p: (nat, nat)) {
    gs != [] && (IsLastSingle(gs[1..], p) || (gs[0] == Single(p.0, p.1) && !HasSingle(gs[1..], p.0)))
  }

  lemma {:induction false} InsertAllChars(t: Tables, gs: seq<Group>)
    requires KeysIncrease(t.chars)
    ensures KeysIncrease(InsertAll(t, gs).chars)
    ensures forall p :: p in InsertAll(t, gs).chars <==> IsLastSingle(gs, p) || (p in t.chars && !HasSingle(gs, p.0))
    decreases gs
  {
    if gs != [] {
      if gs[0].Single? { PutMember(t.chars, gs[0].code, gs[0].uni); }
      InsertAllChars(Insert(t, gs[0]), gs[1..]);
    }
  }

  // ---------- The theorems ----------

  /** The entry lies in one of the ranges. */
  predicate InRange(gs: seq<Group>, e: Entry) {
    gs != [] && ((!gs[0].Single? && e in gs[0].Expand()) || InRange(gs[1..], e))
  }

  lemma TablesHead(gs: seq<Group>)
    requires gs != [] && gs[0].Valid()
    ensures SinglesOf(gs) == if gs[0].Single? then [(gs[0].code, gs[0].uni)] + SinglesOf(gs[1..]) else SinglesOf(gs[1..])
    ensures ListsOf(gs) ==
      if gs[0].List? then [((gs[0].lo, gs[0].lo + |gs[0].unis| - 1), gs[0].unis)] + ListsOf(gs[1..]) else ListsOf(gs[1..])
    ensures RunsOf(gs) ==
      if gs[0].Run? then [((gs[0].lo, gs[0].lo + gs[0].len - 1), gs[0].uni)] + RunsOf(gs[1..]) else RunsOf(gs[1..])
  {
  }

  lemma ListMember(lo: nat, us: seq<nat>, c: nat, u: nat)
    requires us != []
    ensures Entry(c, u) in List(lo, us).Expand() <==> ListDecodes(((lo, lo + |us| - 1), us), c, u)
  {
    if lo <= c < lo + |us| { assert List(lo, us).Expand()[c - lo] == Entry(c, us[c - lo]); }
  }

  lemma RunMember(lo: nat, n: nat, v: nat, c: nat, u: nat)
    requires n > 0
    ensures Entry(c, u) in Run(lo, n, v).Expand() <==> RunDecodes(((lo, lo + n - 1), v), c, u)
  {
    var es := Run(lo, n, v).Expand();
    if lo <= c < lo + n { assert es[c - lo] == Entry(c, v + (c - lo)); }
    if Entry(c, u) in es {
      var i :| 0 <= i < |es| && es[i] == Entry(c, u);
      assert es[i] == Entry(lo + i, v + i);
    }
  }

  lemma {:induction false} RangesDecode(gs: seq<Group>, c: nat, u: nat)
    requires forall i :: 0 <= i < |gs| ==> gs[i].Valid()
    ensures InRange(gs, Entry(c, u)) <==>
            || (exists r :: r in ListsOf(gs) && ListDecodes(r, c, u))
            || (exists r :: r in RunsOf(gs) && RunDecodes(r, c, u))
  {
    hide ListDecodes, RunDecodes;
    if gs != [] {
      RangesDecode(gs[1..], c, u);
      TablesHead(gs);
      match gs[0] {
        case Single(_, _) =>
        case List(lo, us) => ListMember(lo, us, c, u);
        case Run(lo, n, v) => RunMember(lo, n, v, c, u);
      }
    }
  }

  /** Exactly what survives compression: every entry of a range, and of the single entries
      that share a code, the last. */
  lemma DecodingExact(m: seq<Entry>, c: nat, u: nat)
    requires Sorted(m)
    ensures Decodes(Compress(m), c, u) <==> InRange(Groups(m), Entry(c, u)) || IsLastSingle(Groups(m), (c, u))
  {
    GroupsWellCut(m, 0);
    RangesKept(m);
    RangesDecode(Groups(m), c, u);
    InsertAllChars(Tables([], [], []), Groups(m));
  }

  lemma {:induction false} SurvivorsComeFromInput(gs: seq<Group>, c: nat, u: nat)
    requires InRange(gs, Entry(c, u)) || IsLastSingle(gs, (c, u))
    ensures Entry(c, u) in Flat(gs)
  {
    if InRange(gs[1..], Entry(c, u)) || IsLastSingle(gs[1..], (c, u)) {
      SurvivorsComeFromInput(gs[1..], c, u);
    } else if gs[0].Single? {
      assert gs[0].Expand()[0] == Entry(c, u);
    }
  }

  lemma {:induction false} CodeSurvives(gs: seq<Group>, e: Entry)
    requires e in Flat(gs)
    ensures exists u :: InRange(gs, Entry(e.code, u)) || IsLastSingle(gs, (e.code, u))
  {
    var g, rest := gs[0], gs[1..];
    if e in Flat(rest) {
      CodeSurvives(rest, e);
      var u :| InRange(rest, Entry(e.code, u)) || IsLastSingle(rest, (e.code, u));
      assert InRange(gs, Entry(e.code, u)) || IsLastSingle(gs, (e.code, u));
    } else if g.Single? && HasSingle(rest, g.code) {
      HasSingleInFlat(rest, g.code);
      var e' :| e' in Flat(rest) && e'.code == e.code;
      CodeSurvives(rest, e');
      var u :| InRange(rest, Entry(e.code, u)) || IsLastSingle(rest, (e.code, u));
      assert InRange(gs, Entry(e.code, u)) || IsLastSingle(gs, (e.code, u));
    } else {
      assert InRange(gs, Entry(e.code, e.uni)) || IsLastSingle(gs, (e.code, e.uni));
    }
  }

  lemma {:induction false} HasSingleInFlat(gs: seq<Group>, c: nat)
    requires HasSingle(gs, c)
    ensures exists e :: e in Flat(gs) && e.code == c
  {
    if gs[0].Single? && gs[0].code == c {
      assert gs[0].Expand()[0] in Flat(gs);
    } else {
      HasSingleInFlat(gs[1..], c);
    }
  }

  /** On any multimap the tables decode only input pairs, and decode every input code. */
  lemma CompressionSound(m: seq<Entry>)
    requires Sorted(m)
    ensures forall c, u :: Decodes(Compress(m), c, u) ==> Entry(c, u) in m
    ensures forall e :: e in m ==> exists u :: Decodes(Compress(m), e.code, u)
  {
    GroupsExpandToInput(m, 0);
    forall c, u | Decodes(Compress(m), c, u) ensures Entry(c, u) in m {
      DecodingExact(m, c, u);
      SurvivorsComeFromInput(Groups(m), c, u);
    }
    forall e | e in m ensures exists u :: Decodes(Compress(m), e.code, u) {
      CodeSurvives(Groups(m), e);
      var u :| InRange(Groups(m), Entry(e.code, u)) || IsLastSingle(Groups(m), (e.code, u));
      DecodingExact(m, e.code, u);
    }
  }

  predicate NoCodeWrittenTwice(gs: seq<Group>) {
    gs == [] || ((gs[0].Single? ==> !HasSingle(gs[1..], gs[0].code)) && NoCodeWrittenTwice(gs[1..]))
  }

  lemma {:induction false} AllSurvive(gs: seq<Group>, e: Entry)
    requires NoCodeWrittenTwice(gs) && e in Flat(gs)
    ensures InRange(gs, e) || IsLastSingle(gs, (e.code, e.uni))
  {
    if e in Flat(gs[1..]) { AllSurvive(gs[1..], e); }
  }

  /** Two glyph codes 5 for unicodes 1 and 2: only the second is kept. */
  lemma DuplicateCodeLoses()
    ensures var m := [Entry(5, 1), Entry(5, 2)]; Sorted(m) && !Decodes(Compress(m), 5, 1) && Decodes(Compress(m), 5, 2)
  {
    var m := [Entry(5, 1), Entry(5, 2)];
    assert GroupsFrom(m, 1) == [Single(5, 2)] + GroupsFrom(m, 2);
    assert Groups(m) == [Single(5, 1)] + [Single(5, 2)];
    assert Groups(m)[1..] == [Single(5, 2)];
    DecodingExact(m, 5, 1);
    DecodingExact(m, 5, 2);
    assert [Single(5, 2)][1..] == [];
  }

  // ---------- Unique codes ----------

  function ListSizes(r: seq<((nat, nat), seq<nat>)>): nat {
    if r == [] then 0 else |r[0].1| + ListSizes(r[1..])
  }

  function RunSizes(r: seq<((nat, nat), nat)>): int {
    if r == [] then 0 else r[0].0.1 - r[0].0.0 + 1 + RunSizes(r[1..])
  }

  /** The number of codes the tables cover, counted with multiplicity. */
  function Coverage(t: Tables): int {
    |t.chars| + ListSizes(t.lists) + RunSizes(t.runs)
  }

  lemma UniqueTail(a: seq<Entry>, b: seq<Entry>)
    requires UniqueCodes(a + b)
    ensures UniqueCodes(b)
    ensures forall x, y :: x in a && y in b ==> x.code < y.code
  {
    forall i, j | 0 <= i < |a| && 0 <= j < |b| ensures a[i].code < b[j].code {
      assert (a + b)[i] == a[i] && (a + b)[|a| + j] == b[j];
    }
    forall i, j | 0 <= i < j < |b| ensures b[i].code < b[j].code {
      assert (a + b)[|a| + i] == b[i] && (a + b)[|a| + j] == b[j];
    }
  }

  predicate CharsBelow(t: Tables, es: seq<Entry>) {
    forall i, e :: 0 <= i < |t.chars| && e in es ==> t.chars[i].0 < e.code
  }

  lemma InsertUnique(t: Tables, g: Group, rest: seq<Entry>)
    requires UniqueCodes(g.Expand() + rest) && CharsBelow(t, g.Expand() + rest)
    ensures CharsBelow(Insert(t, g), rest) && UniqueCodes(rest)
    ensures Insert(t, g).chars == t.chars + if g.Single? then [(g.code, g.uni)] else []
  {
    UniqueTail(g.Expand(), rest);
    if g.Single? {
      assert g.Expand()[0] in g.Expand() + rest;
      PutAfterAll(t.chars, g.code, g.uni, NatLess);
    }
  }

  lemma {:induction false} UniqueSingles(t: Tables, gs: seq<Group>)
    requires UniqueCodes(Flat(gs)) && CharsBelow(t, Flat(gs))
    ensures InsertAll(t, gs).chars == t.chars + SinglesOf(gs)
    decreases gs
  {
    hide UniqueCodes, CharsBelow, Insert, NatLess, PairLess, Put;
    if gs != [] {
      var t', rest := Insert(t, gs[0]), gs[1..];
      var single := if gs[0].Single? then [(gs[0].code, gs[0].uni)] else [];
      InsertUnique(t, gs[0], Flat(rest));
      UniqueSingles(t', rest);
      Regroup(t.chars, single, SinglesOf(rest));
    }
  }

  lemma {:induction false} UniqueWrittenOnce(gs: seq<Group>)
    requires UniqueCodes(Flat(gs))
    ensures NoCodeWrittenTwice(gs)
  {
    if gs != [] {
      UniqueTail(gs[0].Expand(), Flat(gs[1..]));
      UniqueWrittenOnce(gs[1..]);
      assert gs[0].Single? ==> gs[0].Expand()[0] in gs[0].Expand();
      if gs[0].Single? && HasSingle(gs[1..], gs[0].code) {
        HasSingleInFlat(gs[1..], gs[0].code);
        assert false;
      }
    }
  }

  lemma {:induction false} FlatSize(gs: seq<Group>)
    requires forall i :: 0 <= i < |gs| ==> gs[i].Valid()
    ensures |Flat(gs)| == |SinglesOf(gs)| + ListSizes(ListsOf(gs)) + RunSizes(RunsOf(gs))
  {
    if gs != [] {
      FlatSize(gs[1..]);
      TablesHead(gs);
      assert gs[0].List? ==> ListsOf(gs)[1..] == ListsOf(gs[1..]);
      assert gs[0].Run? ==> RunsOf(gs)[1..] == RunsOf(gs[1..]);
    }
  }

  /** With unique codes, compression is lossless and covers each code exactly once. */
  lemma LosslessForUniqueCodes(m: seq<Entry>)
    requires UniqueCodes(m)
    ensures forall c, u :: Decodes(Compress(m), c, u) <==> Entry(c, u) in m
    ensures Coverage(Compress(m)) == |m|
    ensures Compress(m).chars == SinglesOf(Groups(m))
  {
    GroupsExpandToInput(m, 0);
    GroupsWellCut(m, 0);
    CompressionSound(m);
    RangesKept(m);
    UniqueSingles(Tables([], [], []), Groups(m));
    UniqueWrittenOnce(Groups(m));
    FlatSize(Groups(m));
    forall e | e in m ensures Decodes(Compress(m), e.code, e.uni) {
      AllSurvive(Groups(m), e);
      DecodingExact(m, e.code, e.uni);
    }
  }
}
