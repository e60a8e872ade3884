/** What the reader of a written ToUnicode stream is told, entry by entry of the multimap and in which order. */
module CMapOrder {
  import opened Basics
  import opened Sequences
  import opened OrderedMaps
  import opened ToUnicode
  import opened EntryRoles
  import opened CMapText
  import opened CMapRoundTrip

  /** What LoadUnicode asks of its input: two-byte codes, and unicodes within the code space. */
  predicate Bounded(m: seq<Entry>) {
    Sorted(m) && forall i :: 0 <= i < |m| ==> m[i].code <= 0xFFFF && m[i].uni <= 0x10FFFF
  }

  datatype Role = Alone | OnList | OnRun

  function RoleOf(m: seq<Entry>, i: nat): Role {
    if Lone(m, i) then Alone else if InRun(m, i) then OnRun else OnList
  }

  /** The value the reader is told for an entry: its own, or one counted up from the start of its run. */
  function Told(m: seq<Entry>, i: nat): Value
    requires i < |m|
  {
    if RoleOf(m, i).OnRun? then RunValue(m[RunStart(m, i)].uni, i - RunStart(m, i))
    else ValueOf(Utf16(Clean(m[i].uni)))
  }

  function EmitAt(m: seq<Entry>, i: nat): Emit
    requires i < |m|
  {
    Emit(m[i].code, m[i].uni, Told(m, i))
  }

  predicate Within(m: seq<Entry>, ks: seq<nat>) { forall j :: 0 <= j < |ks| ==> ks[j] < |m| }

  function EmitsAt(m: seq<Entry>, ks: seq<nat>): (es: seq<Emit>)
    requires Within(m, ks)
    ensures |es| == |ks| && forall j :: 0 <= j < |ks| ==> es[j] == EmitAt(m, ks[j])
  {
    seq(|ks|, j requires 0 <= j < |ks| => EmitAt(m, ks[j]))
  }

  function Span(i: nat, j: nat): (ks: seq<nat>)
    requires i <= j
    ensures |ks| == j - i && forall d :: 0 <= d < j - i ==> ks[d] == i + d
  {
    seq(j - i, d requires 0 <= d < j - i => i + d)
  }

  /** The entries from i on that have the role. */
  function Where(m: seq<Entry>, i: nat, r: Role): (ks: seq<nat>)
    ensures Within(m, ks)
    decreases |m| - i
  {
    if i >= |m| then [] else (if RoleOf(m, i) == r then [i] else []) + Where(m, i + 1, r)
  }

  lemma {:induction false} WhereAscends(m: seq<Entry>, i: nat, r: Role)
    ensures forall j :: 0 <= j < |Where(m, i, r)| ==> i <= Where(m, i, r)[j] && RoleOf(m, Where(m, i, r)[j]) == r
    ensures forall j, k :: 0 <= j < k < |Where(m, i, r)| ==> Where(m, i, r)[j] < Where(m, i, r)[k]
    decreases |m| - i
  {
    hide RoleOf;
    if i < |m| {
      WhereAscends(m, i + 1, r);
      var rest := Where(m, i + 1, r);
      var ks := (if RoleOf(m, i) == r then [i] else []) + rest;
      assert Where(m, i, r) == ks;
      hide Where;
      forall j | 0 <= j < |ks| ensures i <= ks[j] && RoleOf(m, ks[j]) == r {
        if RoleOf(m, i) == r && j > 0 { assert ks[j] == rest[j - 1]; }
      }
    }
  }

  lemma {:induction false} WhereHas(m: seq<Entry>, i: nat, k: nat, r: Role)
    requires i <= k < |m| && RoleOf(m, k) == r
    ensures k in Where(m, i, r)
    decreases k - i
  {
    hide RoleOf;
    if i < k { WhereHas(m, i + 1, k, r); }
  }

  /** Of lone entries that follow each other with one code, the last. */
  function LastOfCode(m: seq<Entry>, ks: seq<nat>): (r: seq<nat>)
    requires Within(m, ks)
    ensures forall j :: 0 <= j < |r| ==> r[j] in ks
    ensures Within(m, r)
  {
    if ks == [] then []
    else if |ks| > 1 && m[ks[1]].code == m[ks[0]].code then LastOfCode(m, ks[1..])
    else [ks[0]] + LastOfCode(m, ks[1..])
  }

  /** The order in which the entries are told: the single codes, then the lists, then the runs. */
  function Order(m: seq<Entry>): (ks: seq<nat>)
    ensures Within(m, ks)
  {
    LastOfCode(m, Where(m, 0, Alone)) + Where(m, 0, OnList) + Where(m, 0, OnRun)
  }

  lemma SpanFirst(i: nat, j: nat)
    requires i < j
    ensures Span(i, j) == [i] + Span(i + 1, j)
  {
  }

  lemma WhereStep(m: seq<Entry>, i: nat, r: Role)
    requires i < |m|
    ensures Where(m, i, r) == (if RoleOf(m, i) == r then [i] else []) + Where(m, i + 1, r)
  {
    hide RoleOf;
  }

  lemma Nothing<T>(s: seq<T>)
    ensures [] + s == s
  {
  }

  lemma {:induction false} WhereOver(m: seq<Entry>, i: nat, j: nat, role: Role, r: Role)
    requires i <= j <= |m| && forall k :: i <= k < j ==> RoleOf(m, k) == role
    ensures Where(m, i, r) == (if r == role then Span(i, j) else []) + Where(m, j, r)
    decreases j - i
  {
    hide RoleOf, Where, Span;
    Nothing(Where(m, j, r));
    if i < j {
      WhereOver(m, i + 1, j, role, r);
      WhereStep(m, i, r);
      SpanFirst(i, j);
      if r == role { Regroup([i], Span(i + 1, j), Where(m, j, r)); } else { Nothing(Where(m, i + 1, r)); }
    } else {
      assert Span(i, j) == [];
    }
  }

  lemma EmitsAtConcat(m: seq<Entry>, a: seq<nat>, b: seq<nat>)
    requires Within(m, a) && Within(m, b)
    ensures Within(m, a + b) && EmitsAt(m, a + b) == EmitsAt(m, a) + EmitsAt(m, b)
  {
    hide Told;
  }

  lemma EmitsAtFirst(m: seq<Entry>, i: nat, j: nat)
    requires i < j <= |m|
    ensures EmitsAt(m, Span(i, j)) == [EmitAt(m, i)] + EmitsAt(m, Span(i + 1, j))
  {
    hide Told;
    SpanFirst(i, j);
    EmitsAtConcat(m, [i], Span(i + 1, j));
  }

  function PairsAt(m: seq<Entry>, ks: seq<nat>): (ps: seq<(nat, nat)>)
    requires Within(m, ks)
    ensures |ps| == |ks| && forall j :: 0 <= j < |ks| ==> ps[j] == (m[ks[j]].code, m[ks[j]].uni)
  {
    seq(|ks|, j requires 0 <= j < |ks| => (m[ks[j]].code, m[ks[j]].uni))
  }

  lemma {:induction false} ListEmitsAt(m: seq<Entry>, i: nat, j: nat)
    requires i <= j <= |m| && forall k :: i <= k < j ==> RoleOf(m, k).OnList?
    requires forall k :: i < k < j ==> m[k].code == m[k - 1].code + 1
    ensures i < j ==> ListEmits(m[i].code, Unicodes(m[i..j])) == EmitsAt(m, Span(i, j))
    decreases j - i
  {
    hide RoleOf;
    if i < j {
      assert Unicodes(m[i..j]) == [m[i].uni] + Unicodes(m[i + 1..j]);
      ListEmitsAt(m, i + 1, j);
      EmitsAtFirst(m, i, j);
      hide EmitsAt, Span, Unicodes;
      assert i + 1 == j ==> Unicodes(m[i + 1..j]) == [] && EmitsAt(m, Span(i + 1, j)) == [];
    }
  }

  lemma {:induction false} RunEmitsAt(m: seq<Entry>, i: nat, j: nat, d: nat)
    requires i + d <= j <= |m| && i < j
    requires forall k :: i <= k < j ==> RoleOf(m, k).OnRun? && RunStart(m, k) == i
    requires forall k :: i <= k < j ==> m[k] == Entry(m[i].code + (k - i), m[i].uni + (k - i))
    ensures RunEmits(m[i].code, m[i].code + (j - i) - 1, m[i].uni, d) == EmitsAt(m, Span(i + d, j))
    decreases j - i - d
  {
    hide RoleOf, EmitsAt, Span, RunValue;
    if i + d < j {
      RunEmitsAt(m, i, j, d + 1);
      EmitsAtFirst(m, i + d, j);
      assert m[i + d] == Entry(m[i].code + d, m[i].uni + d) && RoleOf(m, i + d).OnRun?;
      assert EmitAt(m, i + d) == Emit(m[i].code + d, m[i].uni + d, RunValue(m[i].uni, d));
    } else {
      assert EmitsAt(m, Span(i + d, j)) == [];
    }
  }

  // ---------- The encoder's tables hold the entries in this order ----------

  /** Of pairs that follow each other with one code, the last. */
  function LastPairs(ps: seq<(nat, nat)>): seq<(nat, nat)> {
    if ps == [] then []
    else if |ps| > 1 && ps[1].0 == ps[0].0 then LastPairs(ps[1..])
    else [ps[0]] + LastPairs(ps[1..])
  }

  lemma {:induction false} LastOfCodePairs(m: seq<Entry>, ks: seq<nat>)
    requires Within(m, ks)
    ensures LastPairs(PairsAt(m, ks)) == PairsAt(m, LastOfCode(m, ks))
    decreases |ks|
  {
    if ks != [] {
      assert PairsAt(m, ks)[1..] == PairsAt(m, ks[1..]);
      LastOfCodePairs(m, ks[1..]);
    }
  }

  lemma {:induction false} CharEmitsAt(m: seq<Entry>, ks: seq<nat>)
    requires Within(m, ks) && forall j :: 0 <= j < |ks| ==> RoleOf(m, ks[j]).Alone?
    ensures CharEmits(PairsAt(m, ks)) == EmitsAt(m, ks)
    decreases |ks|
  {
    hide RoleOf;
    if ks != [] {
      assert PairsAt(m, ks)[1..] == PairsAt(m, ks[1..]);
      CharEmitsAt(m, ks[1..]);
      assert EmitsAt(m, ks) == [EmitAt(m, ks[0])] + EmitsAt(m, ks[1..]);
    }
  }

  function PutAll(t: seq<(nat, nat)>, ps: seq<(nat, nat)>): seq<(nat, nat)>
    decreases |ps|
  {
    if ps == [] then t else PutAll(Put(t, ps[0].0, ps[0].1, NatLess), ps[1..])
  }

  predicate CodesRise(ps: seq<(nat, nat)>) { forall i, j :: 0 <= i < j < |ps| ==> ps[i].0 <= ps[j].0 }

  predicate AllBelow(t: seq<(nat, nat)>, c: nat) { forall i :: 0 <= i < |t| ==> t[i].0 < c }

  /** Writing pairs in code order keeps the last of each code; the first of ps has just been written. */
  lemma {:induction false} PutAllKeepsLast(t: seq<(nat, nat)>, ps: seq<(nat, nat)>)
    requires ps != [] && AllBelow(t, ps[0].0) && CodesRise(ps)
    ensures PutAll(t + [ps[0]], ps[1..]) == t + LastPairs(ps)
    decreases |ps|
  {
    if |ps| > 1 {
      var (p, q) := (ps[0], ps[1]);
      var put := Put(t + [p], q.0, q.1, NatLess);
      assert PutAll(t + [p], ps[1..]) == PutAll(put, ps[1..][1..]);
      if q.0 == p.0 {
        PutOverLast(t + [p], q.0, q.1, NatLess);
        assert (t + [p])[..|t|] == t;
        assert LastPairs(ps) == LastPairs(ps[1..]);
        hide Put, PutAll, LastPairs;
        PutAllKeepsLast(t, ps[1..]);
      } else {
        PutAfterAll(t + [p], q.0, q.1, NatLess);
        assert LastPairs(ps) == [p] + LastPairs(ps[1..]);
        hide Put, PutAll, LastPairs;
        PutAllKeepsLast(t + [p], ps[1..]);
        Regroup(t, [p], LastPairs(ps[1..]));
      }
    } else {
      assert LastPairs(ps) == [ps[0]] + [];
    }
  }

  lemma {:induction false} CharsArePut(t: Tables, gs: seq<Group>)
    ensures InsertAll(t, gs).chars == PutAll(t.chars, SinglesOf(gs))
    decreases gs
  {
    if gs != [] {
      CharsArePut(Insert(t, gs[0]), gs[1..]);
      if gs[0].Single? { assert SinglesOf(gs)[1..] == SinglesOf(gs[1..]); } else { Nothing(SinglesOf(gs[1..])); }
    }
  }

  /** The singles, lists and runs cut from entry i on, as the entries of each role. */
  predicate CutByRole(m: seq<Entry>, i: nat, gs: seq<Group>) {
    && SinglesOf(gs) == PairsAt(m, Where(m, i, Alone))
    && ListsEmits(ListsOf(gs)) == EmitsAt(m, Where(m, i, OnList))
    && RunsEmits(RunsOf(gs)) == EmitsAt(m, Where(m, i, OnRun))
  }

  lemma PassRole(m: seq<Entry>, i: nat) returns (role: Role)
    requires i < |m| && Opens(m, i)
    ensures forall k :: i <= k < CutEnd(m, i) ==> RoleOf(m, k) == role
    ensures Opens(m, CutEnd(m, i))
    ensures match role case Alone => Cut(m, i)[0].Single? case OnList => Cut(m, i)[0].List? case OnRun => Cut(m, i)[0].Run?
    ensures role.OnRun? ==> forall k :: i <= k < CutEnd(m, i) ==> RunStart(m, k) == i
  {
    hide Lone, InRun, Listed, Opens, Cut, CutEnd, RunStart;
    PassRoles(m, i);
    var gs := Cut(m, i);
    role := if gs[0].Single? then Alone else if gs[0].List? then OnList else OnRun;
    forall k | i <= k < CutEnd(m, i) ensures RoleOf(m, k) == role {
      RolesApart(m, k);
      if gs[0].List? { ListIsNotRun(m, k); }
    }
  }

  lemma ListIsNotRun(m: seq<Entry>, k: nat)
    requires Listed(m, k)
    ensures !Lone(m, k) && !InRun(m, k)
  {
  }

  lemma PairsAtConcat(m: seq<Entry>, a: seq<nat>, b: seq<nat>)
    requires Within(m, a) && Within(m, b)
    ensures Within(m, a + b) && PairsAt(m, a + b) == PairsAt(m, a) + PairsAt(m, b)
  {
  }

  lemma WhereOverAll(m: seq<Entry>, i: nat, j: nat, role: Role)
    requires i <= j <= |m| && forall k :: i <= k < j ==> RoleOf(m, k) == role
    ensures Where(m, i, role) == Span(i, j) + Where(m, j, role)
    ensures forall r :: r != role ==> Where(m, i, r) == Where(m, j, r)
  {
    hide Where, RoleOf;
    forall r ensures Where(m, i, r) == (if r == role then Span(i, j) else []) + Where(m, j, r) {
      WhereOver(m, i, j, role, r);
    }
    forall r | r != role ensures Where(m, i, r) == Where(m, j, r) { Nothing(Where(m, j, r)); }
  }

  lemma SinglesAhead(m: seq<Entry>, i: nat, rest: seq<Group>)
    requires i < |m| && Cut(m, i)[0].Single?
    ensures SinglesOf(Cut(m, i) + rest) == PairsAt(m, Span(i, CutEnd(m, i))) + SinglesOf(rest)
    ensures ListsOf(Cut(m, i) + rest) == ListsOf(rest) && RunsOf(Cut(m, i) + rest) == RunsOf(rest)
  {
    var gs := Cut(m, i);
    assert (gs + rest)[1..] == gs[1..] + rest;
    if |gs| == 2 {
      assert (gs + rest)[1..][0] == gs[1] && (gs + rest)[1..][1..] == rest;
      assert PairsAt(m, Span(i, i + 2)) == [(m[i].code, m[i].uni)] + [(m[i + 1].code, m[i + 1].uni)];
    } else {
      assert gs[1..] + rest == rest;
      assert PairsAt(m, Span(i, i + 1)) == [(m[i].code, m[i].uni)];
    }
  }

  lemma AddAlone(m: seq<Entry>, i: nat, rest: seq<Group>)
    requires i < |m| && Cut(m, i)[0].Single? && CutByRole(m, CutEnd(m, i), rest)
    requires forall k :: i <= k < CutEnd(m, i) ==> RoleOf(m, k).Alone?
    ensures CutByRole(m, i, Cut(m, i) + rest)
  {
    var j := CutEnd(m, i);
    SinglesAhead(m, i, rest);
    hide RoleOf, Cut, CutEnd, SinglesOf, ListsOf, RunsOf, Where;
    WhereOverAll(m, i, j, Alone);
    PairsAtConcat(m, Span(i, j), Where(m, j, Alone));
  }

  lemma ListAhead(g: Group, rest: seq<Group>)
    requires g.List? && g.unis != []
    ensures SinglesOf([g] + rest) == SinglesOf(rest) && RunsOf([g] + rest) == RunsOf(rest)
    ensures ListsEmits(ListsOf([g] + rest)) == ListEmits(g.lo, g.unis) + ListsEmits(ListsOf(rest))
  {
    assert ([g] + rest)[1..] == rest;
    assert ListsOf([g] + rest)[1..] == ListsOf(rest);
  }

  lemma AddList(m: seq<Entry>, i: nat, rest: seq<Group>)
    requires i < |m| && Cut(m, i)[0].List? && CutByRole(m, CutEnd(m, i), rest)
    requires forall k :: i <= k < CutEnd(m, i) ==> RoleOf(m, k).OnList?
    ensures CutByRole(m, i, Cut(m, i) + rest)
  {
    hide RoleOf, Cut, CutEnd, SinglesOf, ListsOf, RunsOf, ListsEmits, RunsEmits, ListEmits, EmitsAt, PairsAt, Where, Span,
      Unicodes, InBlock;
    CutIsList(m, i);
    var j := CutEnd(m, i);
    ListAhead(Cut(m, i)[0], rest);
    ListEmitsAt(m, i, j);
    WhereOverAll(m, i, j, OnList);
    EmitsAtConcat(m, Span(i, j), Where(m, j, OnList));
  }

  lemma CutIsList(m: seq<Entry>, i: nat)
    requires i < |m| && Cut(m, i)[0].List?
    ensures Cut(m, i) == [Cut(m, i)[0]] && Cut(m, i)[0] == List(m[i].code, Unicodes(m[i..CutEnd(m, i)]))
    ensures i + 2 <= CutEnd(m, i) && Cut(m, i)[0].unis != []
    ensures forall k :: i < k < CutEnd(m, i) ==> m[k].code == m[k - 1].code + 1
  {
    assert InBlock(m, i + 1);
    BlockEnds(m, i, CutEnd(m, i));
    assert forall k :: i < k < CutEnd(m, i) ==> InBlock(m, k);
  }

  lemma RunAhead(g: Group, rest: seq<Group>)
    requires g.Run? && g.len != 0
    ensures SinglesOf([g] + rest) == SinglesOf(rest) && ListsOf([g] + rest) == ListsOf(rest)
    ensures RunsEmits(RunsOf([g] + rest)) == RunEmits(g.lo, g.lo + g.len - 1, g.uni, 0) + RunsEmits(RunsOf(rest))
  {
    assert ([g] + rest)[1..] == rest;
    assert RunsOf([g] + rest)[1..] == RunsOf(rest);
  }

  lemma RunCounts(m: seq<Entry>, i: nat, j: nat)
    requires i + 1 < |m| && InBlock(m, i + 1) && j == CutEnd(m, i) && m[i].uni + 1 == m[i + 1].uni
    ensures forall k :: i <= k < j ==> m[k] == Entry(m[i].code + (k - i), m[i].uni + (k - i))
  {
    forall k | i <= k < j ensures m[k] == Entry(m[i].code + (k - i), m[i].uni + (k - i)) {
      if k > i + 1 { assert m[k] == Entry(m[i + 1].code + 1 + k - (i + 2), m[i + 1].uni + 1 + k - (i + 2)); }
    }
  }

  lemma AddRun(m: seq<Entry>, i: nat, rest: seq<Group>)
    requires i < |m| && Cut(m, i)[0].Run? && CutByRole(m, CutEnd(m, i), rest)
    requires forall k :: i <= k < CutEnd(m, i) ==> RoleOf(m, k).OnRun? && RunStart(m, k) == i
    ensures CutByRole(m, i, Cut(m, i) + rest)
  {
    hide RoleOf, Cut, CutEnd, SinglesOf, ListsOf, RunsOf, ListsEmits, RunsEmits, RunEmits, EmitsAt, PairsAt, Where, Span,
      InBlock, RunStart, CutByRole;
    CutIsRun(m, i);
    RunAhead(Cut(m, i)[0], rest);
    RunIsSpan(m, i);
    RunsAdded(m, i, CutEnd(m, i), Cut(m, i) + rest, rest);
  }

  lemma RunsAdded(m: seq<Entry>, i: nat, j: nat, gs: seq<Group>, rest: seq<Group>)
    requires i <= j <= |m| && CutByRole(m, j, rest) && forall k :: i <= k < j ==> RoleOf(m, k).OnRun?
    requires SinglesOf(gs) == SinglesOf(rest) && ListsOf(gs) == ListsOf(rest)
    requires Within(m, Span(i, j)) && RunsEmits(RunsOf(gs)) == EmitsAt(m, Span(i, j)) + RunsEmits(RunsOf(rest))
    ensures CutByRole(m, i, gs)
  {
    hide RoleOf, SinglesOf, ListsOf, RunsOf, ListsEmits, RunsEmits, EmitsAt, PairsAt, Where, Span;
    WhereOverAll(m, i, j, OnRun);
    EmitsAtConcat(m, Span(i, j), Where(m, j, OnRun));
  }

  lemma RunIsSpan(m: seq<Entry>, i: nat)
    requires i < |m| && Cut(m, i)[0].Run?
    requires forall k :: i <= k < CutEnd(m, i) ==> RoleOf(m, k).OnRun? && RunStart(m, k) == i
    ensures Within(m, Span(i, CutEnd(m, i)))
    ensures var g := Cut(m, i)[0];
      i + 2 <= CutEnd(m, i) && g.lo + g.len >= 1
      && RunEmits(g.lo, g.lo + g.len - 1, g.uni, 0) == EmitsAt(m, Span(i, CutEnd(m, i)))
  {
    hide RoleOf, Cut, CutEnd, RunEmits, EmitsAt, Span, RunStart, InBlock;
    CutIsRun(m, i);
    RunEmitsAt(m, i, CutEnd(m, i), 0);
    assert i + 0 == i;
  }

  lemma CutIsRun(m: seq<Entry>, i: nat)
    requires i < |m| && Cut(m, i)[0].Run?
    ensures Cut(m, i) == [Cut(m, i)[0]] && Cut(m, i)[0] == Run(m[i].code, CutEnd(m, i) - i, m[i].uni)
    ensures i + 2 <= CutEnd(m, i)
    ensures forall k :: i <= k < CutEnd(m, i) ==> m[k] == Entry(m[i].code + (k - i), m[i].uni + (k - i))
  {
    RunCounts(m, i, CutEnd(m, i));
  }

  lemma {:induction false} GroupsByRole(m: seq<Entry>, i: nat)
    requires i <= |m| && Opens(m, i)
    ensures CutByRole(m, i, GroupsFrom(m, i))
    decreases |m| - i
  {
    if i == |m| {
      assert GroupsFrom(m, i) == [] && Where(m, i, Alone) == [] && Where(m, i, OnList) == [] && Where(m, i, OnRun) == [];
    } else {
      hide Opens, Cut, CutEnd, CutByRole, RoleOf, RunStart;
      var j := CutEnd(m, i);
      var role := PassRole(m, i);
      GroupsByRole(m, j);
      match role
      case Alone => AddAlone(m, i, GroupsFrom(m, j));
      case OnList => AddList(m, i, GroupsFrom(m, j));
      case OnRun => AddRun(m, i, GroupsFrom(m, j));
    }
  }

  lemma CharsKeepLast(ps: seq<(nat, nat)>)
    requires CodesRise(ps)
    ensures PutAll([], ps) == LastPairs(ps)
  {
    if ps != [] {
      assert Put([], ps[0].0, ps[0].1, NatLess) == [] + [ps[0]];
      PutAllKeepsLast([], ps);
      Nothing(LastPairs(ps));
    }
  }

  lemma LoneCodesRise(m: seq<Entry>)
    requires Sorted(m)
    ensures CodesRise(PairsAt(m, Where(m, 0, Alone)))
  {
    hide RoleOf;
    WhereAscends(m, 0, Alone);
  }

  lemma LoneAreTold(m: seq<Entry>)
    requires Sorted(m)
    ensures CharEmits(PutAll([], PairsAt(m, Where(m, 0, Alone)))) == EmitsAt(m, LastOfCode(m, Where(m, 0, Alone)))
  {
    hide RoleOf, Where, EmitsAt, CharEmits, PairsAt;
    var ks := Where(m, 0, Alone);
    LoneCodesRise(m);
    CharsKeepLast(PairsAt(m, ks));
    LastOfCodePairs(m, ks);
    WhereAscends(m, 0, Alone);
    var last := LastOfCode(m, ks);
    forall j | 0 <= j < |last| ensures RoleOf(m, last[j]).Alone? { assert last[j] in ks; }
    CharEmitsAt(m, last);
  }

  /** What the reader is told by the tables, told from the list: its entries by role, the lone ones first. */
  lemma EmitsInOrder(m: seq<Entry>)
    requires Sorted(m)
    ensures AllEmits(Compress(m)) == EmitsAt(m, Order(m))
  {
    StartsAnew(m, 0);
    GroupsByRole(m, 0);
    RangesKept(m);
    CharsArePut(Tables([], [], []), Groups(m));
    LoneAreTold(m);
    hide RoleOf, Where, EmitsAt, CharEmits, PairsAt, Compress, GroupsFrom, LastOfCode;
    var (alone, list, run) := (LastOfCode(m, Where(m, 0, Alone)), Where(m, 0, OnList), Where(m, 0, OnRun));
    EmitsAtConcat(m, alone, list);
    EmitsAtConcat(m, alone + list, run);
  }

  /** The tables are such as the reader needs them to be. */
  lemma TablesAreShaped(m: seq<Entry>)
    requires Bounded(m)
    ensures Shaped(Compress(m))
  {
    var gs := Groups(m);
    GroupsExpandToInput(m, 0);
    GroupsWellCut(m, 0);
    RangesKept(m);
    forall i | 0 <= i < |gs| ensures gs[i].Last() <= 0xFFFF { LastCodeInFlat(gs, i); }
    TablesShaped(gs);
    InsertAllChars(Tables([], [], []), gs);
    var chars := Compress(m).chars;
    forall i | 0 <= i < |chars| ensures chars[i].0 <= 0xFFFF {
      assert chars[i] in chars;
      SurvivorsComeFromInput(gs, chars[i].0, chars[i].1);
    }
  }

  lemma {:induction false} LastCodeInFlat(gs: seq<Group>, i: nat)
    requires i < |gs| && gs[i].Valid()
    ensures exists e :: e in Flat(gs) && e.code == gs[i].Last()
  {
    if i == 0 {
      var x := gs[0].Expand();
      assert x[|x| - 1] in Flat(gs);
    } else {
      LastCodeInFlat(gs[1..], i - 1);
    }
  }

  lemma {:induction false} TablesShaped(gs: seq<Group>)
    requires forall i :: 0 <= i < |gs| ==> gs[i].Valid() && gs[i].Last() <= 0xFFFF
    ensures Shaped(Tables(SinglesOf(gs), ListsOf(gs), RunsOf(gs)))
  {
    if gs != [] {
      TablesHead(gs);
      TablesShaped(gs[1..]);
    }
  }

  lemma {:induction false} LastOfCodeHas(m: seq<Entry>, ks: seq<nat>, k: nat)
    requires Within(m, ks) && k in ks
    ensures exists j :: 0 <= j < |LastOfCode(m, ks)| && m[LastOfCode(m, ks)[j]].code == m[k].code
    decreases |ks|
  {
    if |ks| > 1 && m[ks[1]].code == m[ks[0]].code {
      assert LastOfCode(m, ks) == LastOfCode(m, ks[1..]);
      var next := if k == ks[0] then ks[1] else k;
      assert ks[1..][0] == ks[1] && next in ks[1..];
      LastOfCodeHas(m, ks[1..], next);
    } else if k == ks[0] {
      assert LastOfCode(m, ks)[0] == k;
    } else {
      var rest := LastOfCode(m, ks[1..]);
      LastOfCodeHas(m, ks[1..], k);
      var j :| 0 <= j < |rest| && m[rest[j]].code == m[k].code;
      assert LastOfCode(m, ks)[j + 1] == rest[j];
    }
  }

  /** No code goes untold. */
  lemma EveryCodeIsTold(m: seq<Entry>, i: nat)
    requires i < |m|
    ensures exists k :: 0 <= k < |Order(m)| && m[Order(m)[k]].code == m[i].code
  {
    hide Lone, InRun, Where, LastOfCode;
    var (alone, list, run) := (LastOfCode(m, Where(m, 0, Alone)), Where(m, 0, OnList), Where(m, 0, OnRun));
    WhereHas(m, 0, i, RoleOf(m, i));
    match RoleOf(m, i)
    case Alone =>
      LastOfCodeHas(m, Where(m, 0, Alone), i);
      var j :| 0 <= j < |alone| && m[alone[j]].code == m[i].code;
      assert Order(m)[j] == alone[j];
    case OnList =>
      var j :| 0 <= j < |list| && list[j] == i;
      assert Order(m)[|alone| + j] == i;
    case OnRun =>
      var j :| 0 <= j < |run| && run[j] == i;
      assert Order(m)[|alone| + |list| + j] == i;
  }
}
