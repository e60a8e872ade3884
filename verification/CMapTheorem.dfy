/** When the library's own reader maps every code of a written ToUnicode stream back to its unicode. */
module CMapTheorem {
  import opened Basics
  import opened Sequences
  import opened ToUnicode
  import opened EntryRoles
  import opened CMapReader
  import opened CMapText
  import opened CMapRoundTrip
  import opened CMapOrder

  // ---------- How often each pair is told ----------

  function Count(es: seq<Emit>, p: (nat, nat) -> bool): nat {
    if es == [] then 0 else (if p(es[0].code, es[0].uni) then 1 else 0) + Count(es[1..], p)
  }

  function CountEntries(m: seq<Entry>, p: (nat, nat) -> bool): nat {
    if m == [] then 0 else (if p(m[0].code, m[0].uni) then 1 else 0) + CountEntries(m[1..], p)
  }

  lemma {:induction false} CountConcat(a: seq<Emit>, b: seq<Emit>, p: (nat, nat) -> bool)
    ensures Count(a + b, p) == Count(a, p) + Count(b, p)
  {
    if a == [] { assert a + b == b; } else {
      CountConcat(a[1..], b, p);
      assert (a + b)[1..] == a[1..] + b;
    }
  }

  /** The entries from i on that survive and satisfy p. */
  function CountSurvivors(m: seq<Entry>, i: nat, p: (nat, nat) -> bool): nat
    decreases |m| - i
  {
    if i >= |m| then 0
    else (if Survives(m, i) && p(m[i].code, m[i].uni) then 1 else 0) + CountSurvivors(m, i + 1, p)
  }

  lemma CountFirst(m: seq<Entry>, i: nat, ks: seq<nat>, p: (nat, nat) -> bool)
    requires i < |m| && Within(m, ks)
    ensures Count(EmitsAt(m, [i] + ks), p) == (if p(m[i].code, m[i].uni) then 1 else 0) + Count(EmitsAt(m, ks), p)
  {
    hide Told;
    assert EmitsAt(m, [i] + ks)[1..] == EmitsAt(m, ks);
  }

  /** A lone entry is overwritten exactly when the next lone entry has its code. */
  lemma OverwrittenByNext(m: seq<Entry>, i: nat)
    requires Sorted(m) && i < |m| && Lone(m, i)
    ensures var rest := Where(m, i + 1, Alone);
      LastLone(m, i) <==> !(rest != [] && m[rest[0]].code == m[i].code)
  {
    hide Lone, Where, InRun;
    var rest := Where(m, i + 1, Alone);
    WhereAscends(m, i + 1, Alone);
    if rest != [] { assert RoleOf(m, rest[0]).Alone?; }
    if !LastLone(m, i) {
      var l :| i < l < |m| && Lone(m, l) && m[l].code == m[i].code;
      WhereHas(m, i + 1, l, Alone);
      var j :| 0 <= j < |rest| && rest[j] == l;
      assert rest[0] <= l;
    }
  }

  /** What is told of the entries of one role from i on: of lone ones, the last of each code. */
  function CountTold(m: seq<Entry>, i: nat, r: Role, p: (nat, nat) -> bool): nat {
    Count(EmitsAt(m, if r.Alone? then LastOfCode(m, Where(m, i, r)) else Where(m, i, r)), p)
  }

  lemma CountToldStep(m: seq<Entry>, i: nat, r: Role, p: (nat, nat) -> bool)
    requires Sorted(m) && i < |m|
    ensures CountTold(m, i, r, p) == CountTold(m, i + 1, r, p)
         + if RoleOf(m, i) == r && Survives(m, i) && p(m[i].code, m[i].uni) then 1 else 0
  {
    hide Lone, InRun, Count, EmitsAt, Told;
    WhereStep(m, i, r);
    var rest := Where(m, i + 1, r);
    hide Where;
    if RoleOf(m, i) != r {
      Nothing(rest);
    } else if r.Alone? {
      OverwrittenByNext(m, i);
      assert ([i] + rest)[1..] == rest;
      CountFirst(m, i, LastOfCode(m, rest), p);
    } else {
      CountFirst(m, i, rest, p);
    }
  }

  lemma {:induction false} SurvivorsAreTold(m: seq<Entry>, i: nat, p: (nat, nat) -> bool)
    requires Sorted(m) && i <= |m|
    ensures CountTold(m, i, Alone, p) + CountTold(m, i, OnList, p) + CountTold(m, i, OnRun, p) == CountSurvivors(m, i, p)
    decreases |m| - i
  {
    hide CountTold, RoleOf, Survives;
    if i < |m| {
      SurvivorsAreTold(m, i + 1, p);
      CountToldStep(m, i, Alone, p);
      CountToldStep(m, i, OnList, p);
      CountToldStep(m, i, OnRun, p);
    } else {
      forall r ensures CountTold(m, i, r, p) == 0 { CountToldEnd(m, r, p); }
    }
  }

  lemma CountToldEnd(m: seq<Entry>, r: Role, p: (nat, nat) -> bool)
    ensures CountTold(m, |m|, r, p) == 0
  {
    hide RoleOf, Told;
    assert Where(m, |m|, r) == [] && LastOfCode(m, []) == [] && EmitsAt(m, []) == [];
  }

  /** How often the reader is told each pair, for every multimap: once for each of its entries that survives. */
  lemma EachSurvivorToldOnce(m: seq<Entry>, p: (nat, nat) -> bool)
    requires Sorted(m)
    ensures Count(AllEmits(Compress(m)), p) == CountSurvivors(m, 0, p)
  {
    hide Compress, AllEmits, Where, LastOfCode, EmitsAt, Count, Survives;
    EmitsInOrder(m);
    SurvivorsAreTold(m, 0, p);
    var (alone, list, run) := (LastOfCode(m, Where(m, 0, Alone)), Where(m, 0, OnList), Where(m, 0, OnRun));
    EmitsAtConcat(m, alone, list);
    EmitsAtConcat(m, alone + list, run);
    CountConcat(EmitsAt(m, alone), EmitsAt(m, list), p);
    CountConcat(EmitsAt(m, alone) + EmitsAt(m, list), EmitsAt(m, run), p);
  }

  // ---------- What a lookup finds among the stored emits ----------

  function StoredValue(e: Emit, offset: nat): nat {
    match e.value
    case Direct(v) => v
    case Wide(_) => if offset * 0x10000 + 0xFFFF <= 0xFFFF_FFFF then offset * 0x10000 + 0xFFFF else 0
  }

  function Stored(e: Emit): seq<nat> {
    if e.value.Wide? then [|e.value.units|] + e.value.units else []
  }

  function EntriesFor(es: seq<Emit>, offset: nat): seq<(nat, nat)>
    decreases es
  {
    if es == [] then []
    else [(es[0].code, StoredValue(es[0], offset))] + EntriesFor(es[1..], offset + |Stored(es[0])|)
  }

  function BufferFor(es: seq<Emit>): seq<nat> {
    if es == [] then [] else Stored(es[0]) + BufferFor(es[1..])
  }

  lemma {:induction false} TableContents(t: Table, es: seq<Emit>)
    ensures ApplyAll(t, es) == Table(t.entries + EntriesFor(es, |t.buf|), t.buf + BufferFor(es))
    decreases es
  {
    if es != [] {
      var t' := Apply(t, es[0]);
      TableContents(t', es[1..]);
      assert t' == Table(t.entries + [(es[0].code, StoredValue(es[0], |t.buf|))], t.buf + Stored(es[0]));
      Regroup(t.entries, [(es[0].code, StoredValue(es[0], |t.buf|))], EntriesFor(es[1..], |t'.buf|));
      Regroup(t.buf, Stored(es[0]), BufferFor(es[1..]));
    }
  }

  /** The number of emits before k that go through the multi-character buffer. */
  function Rank(es: seq<Emit>, k: nat): nat
    requires k <= |es|
  {
    if k == 0 then 0 else (if es[0].value.Wide? then 1 else 0) + Rank(es[1..], k - 1)
  }

  predicate PairsOnly(es: seq<Emit>) {
    forall i :: 0 <= i < |es| ==> es[i].value.Wide? ==> |es[i].value.units| == 2
  }

  /** No emit before k has its code. */
  predicate FirstOfCode(es: seq<Emit>, k: nat)
    requires k < |es|
  {
    forall j :: 0 <= j < k ==> es[j].code != es[k].code
  }

  lemma {:induction false} FindsEmit(es: seq<Emit>, offset: nat, k: nat)
    requires k < |es| && PairsOnly(es) && FirstOfCode(es, k)
    ensures Find(EntriesFor(es, offset), es[k].code) == Some(StoredValue(es[k], offset + 3 * Rank(es, k)))
    decreases es
  {
    if k > 0 {
      FindsEmit(es[1..], offset + |Stored(es[0])|, k - 1);
      assert EntriesFor(es, offset)[1..] == EntriesFor(es[1..], offset + |Stored(es[0])|);
    }
  }

  lemma SliceBehind(a: seq<nat>, b: seq<nat>, o: nat)
    requires o + 3 <= |b|
    ensures (a + b)[|a| + o..|a| + o + 3] == b[o..o + 3]
  {
  }

  lemma {:induction false} BufferHolds(es: seq<Emit>, k: nat)
    requires k < |es| && PairsOnly(es) && es[k].value.Wide?
    ensures var o := 3 * Rank(es, k); o + 3 <= |BufferFor(es)| && BufferFor(es)[o..o + 3] == [2] + es[k].value.units
  {
    if k > 0 {
      BufferHolds(es[1..], k - 1);
      SliceBehind(Stored(es[0]), BufferFor(es[1..]), 3 * Rank(es[1..], k - 1));
      assert |Stored(es[0])| == if es[0].value.Wide? then 3 else 0;
    } else {
      assert BufferFor(es)[..3] == Stored(es[0]);
    }
  }

  lemma {:induction false} BufferStart(es: seq<Emit>)
    requires PairsOnly(es)
    ensures BufferFor(es) == [] || (|BufferFor(es)| >= 3 && BufferFor(es)[0] == 2)
  {
    if es != [] { BufferStart(es[1..]); }
  }

  lemma MarkerSplits(o: nat)
    ensures (o * 0x10000 + 0xFFFF) % 0x10000 == 0xFFFF && (o * 0x10000 + 0xFFFF) / 0x10000 == o
  {
  }

  lemma LookupStored(es: seq<Emit>, k: nat) returns (t: Table)
    requires k < |es| && PairsOnly(es) && FirstOfCode(es, k)
    ensures t == ApplyAll(Table([], []), es) && t.buf == BufferFor(es)
    ensures Find(t.entries, es[k].code) == Some(StoredValue(es[k], 3 * Rank(es, k)))
  {
    hide EntriesFor, BufferFor, FirstOfCode, PairsOnly, Rank, StoredValue;
    t := ApplyAll(Table([], []), es);
    TableContents(Table([], []), es);
    assert [] + EntriesFor(es, 0) == EntriesFor(es, 0) && [] + BufferFor(es) == BufferFor(es);
    FindsEmit(es, 0, k);
  }

  lemma LookupDirect(es: seq<Emit>, k: nat)
    requires k < |es| && PairsOnly(es) && FirstOfCode(es, k) && es[k].value.Direct?
    ensures var (v, found) := (es[k].value.value, Lookup(ApplyAll(Table([], []), es), es[k].code));
      if v % 0x10000 != 0xFFFF then found == [v % 0x10000] else v == 0xFFFF ==> |found| != 1
  {
    hide EntriesFor, BufferFor, FirstOfCode, PairsOnly, Rank, ApplyAll, Find;
    var t := LookupStored(es, k);
    BufferStart(es);
  }

  lemma LookupWide(es: seq<Emit>, k: nat)
    requires k < |es| && PairsOnly(es) && FirstOfCode(es, k) && es[k].value.Wide? && |es[k].value.units| == 2
    ensures Lookup(ApplyAll(Table([], []), es), es[k].code) == if Rank(es, k) <= 21845 then es[k].value.units else [0]
  {
    hide EntriesFor, BufferFor, FirstOfCode, PairsOnly, Rank, ApplyAll, Find;
    var t := LookupStored(es, k);
    var o := 3 * Rank(es, k);
    BufferHolds(es, k);
    MarkerSplits(o);
    assert t.buf[o] == t.buf[o..o + 3][0] && t.buf[o + 1..o + 3] == t.buf[o..o + 3][1..];
  }

  // ---------- Counting ----------

  function CodeIs(c: nat): (nat, nat) -> bool { (x: nat, u: nat) => x == c }

  predicate NeedsPair(c: nat, u: nat) { u > 0xFFFF }

  lemma {:induction false} CountPositive(es: seq<Emit>, p: (nat, nat) -> bool, k: nat)
    requires k < |es| && p(es[k].code, es[k].uni)
    ensures Count(es, p) > 0
  {
    if k > 0 { CountPositive(es[1..], p, k - 1); }
  }

  lemma {:induction false} CountTwice(es: seq<Emit>, p: (nat, nat) -> bool, i: nat, j: nat)
    requires i < j < |es| && p(es[i].code, es[i].uni) && p(es[j].code, es[j].uni)
    ensures Count(es, p) > 1
  {
    if i > 0 { CountTwice(es[1..], p, i - 1, j - 1); } else { CountPositive(es[1..], p, j - 1); }
  }

  lemma {:induction false} AbsentCode(m: seq<Entry>, c: nat)
    requires forall i :: 0 <= i < |m| ==> m[i].code != c
    ensures CountEntries(m, CodeIs(c)) == 0
  {
    if m != [] { AbsentCode(m[1..], c); }
  }

  lemma {:induction false} UniqueCounts(m: seq<Entry>, c: nat)
    requires UniqueCodes(m)
    ensures CountEntries(m, CodeIs(c)) <= 1
  {
    if m != [] {
      if m[0].code == c { AbsentCode(m[1..], c); } else { UniqueCounts(m[1..], c); }
    }
  }

  // ---------- Which values are right ----------

  /** Counting up i steps from u in 16-bit units yields the code units of u + i. */
  predicate CountsUp(u: nat, i: nat) {
    if u <= 0xFFFF then u + i <= 0xFFFF else (u - 0x10000) % 0x400 + i < 0x400
  }

  predicate Good(e: Emit) {
    e.value == ValueOf(Utf16(e.uni))
  }

  /** What a value can be: the unicode's own number, a small one counted from a surrogate that is written as 0, the
      unicode's own pair, or one whose low surrogate is out of its range. */
  predicate Plausible(e: Emit) {
    match e.value
    case Direct(v) => v < 0x100FF && (v == e.uni || (v <= 0xFF && 0xD800 <= e.uni <= 0xFFFF))
    case Wide(us) => |us| == 2 && e.uni > 0xFFFF && (us == Utf16(e.uni) || us[1] > 0xDFFF)
  }

  lemma LowSurrogateStep(x: nat, i: nat)
    requires x % 0x400 + i < 0x400
    ensures (x + i) / 0x400 == x / 0x400 && (x + i) % 0x400 == x % 0x400 + i
  {
  }

  lemma RunEmitKind(c: nat, u: nat, d: nat)
    requires d <= 255
    ensures var e := Emit(c, u + d, RunValue(u, d));
      Plausible(e) && (Good(e) <==> !Surrogate(u) && CountsUp(u, d))
  {
    if u > 0xFFFF && CountsUp(u, d) {
      LowSurrogateStep(u - 0x10000, d);
      assert u + d - 0x10000 == u - 0x10000 + d;
    }
  }

  /** The entries of a run up to i: they share its start, and count up by one, within a block. */
  lemma RunMembers(m: seq<Entry>, i: nat)
    requires i < |m| && InRun(m, i)
    ensures var s := RunStart(m, i);
      && i - s <= 255
      && forall k :: s <= k <= i ==>
           InRun(m, k) && RunStart(m, k) == s && m[k] == Entry(m[s].code + (k - s), m[s].uni + (k - s))
  {
    hide InRun, RunStart;
    var s := RunStart(m, i);
    RunCountsUp(m, i);
    assert Member(m, s, i);
    RunStaysInBlock(m, i);
    WithinBlock(m[s].code, i - s);
    forall k | s <= k <= i
      ensures InRun(m, k) && RunStart(m, k) == s && m[k] == Entry(m[s].code + (k - s), m[s].uni + (k - s))
    {
      assert Member(m, s, k);
    }
  }

  /** The entry is in the run that starts at s, and counted up from there. */
  predicate Member(m: seq<Entry>, s: nat, k: nat) {
    s <= k < |m| && InRun(m, k) && RunStart(m, k) == s && m[k] == Entry(m[s].code + (k - s), m[s].uni + (k - s))
  }

  lemma {:induction false} RunCountsUp(m: seq<Entry>, i: nat)
    requires i < |m| && InRun(m, i)
    ensures forall k :: RunStart(m, i) <= k <= i ==> Member(m, RunStart(m, i), k)
  {
    if Start(m, i) < i && Counts(m, i) {
      RunBack(m, i);
      RunCountsUp(m, i - 1);
      hide *;
      MemberNext(m, RunStart(m, i), i);
    } else {
      hide InRun;
    }
  }

  lemma MemberNext(m: seq<Entry>, s: nat, i: nat)
    requires i < |m| && InRun(m, i) && RunStart(m, i) == s && s < i && Member(m, s, i - 1)
    requires m[i] == Entry(m[i - 1].code + 1, m[i - 1].uni + 1)
    ensures Member(m, s, i)
  {
    hide InRun, RunStart;
  }

  lemma {:induction false} RunStaysInBlock(m: seq<Entry>, i: nat)
    requires i < |m| && InRun(m, i)
    ensures RunStart(m, i) <= i && m[RunStart(m, i)].code / 256 == m[i].code / 256
  {
    if Start(m, i) < i && Counts(m, i) {
      RunBack(m, i);
      RunStaysInBlock(m, i - 1);
      hide *;
    } else {
      hide InRun;
    }
  }

  lemma WithinBlock(c: nat, d: nat)
    requires (c + d) / 256 == c / 256
    ensures d <= 255
  {
  }

  lemma RunBack(m: seq<Entry>, i: nat)
    requires i < |m| && InRun(m, i) && Start(m, i) < i && Counts(m, i)
    ensures InRun(m, i - 1) && RunStart(m, i) == RunStart(m, i - 1)
    ensures m[i] == Entry(m[i - 1].code + 1, m[i - 1].uni + 1) && m[i - 1].code / 256 == m[i].code / 256
  {
    StartIsAhead(m, i);
    SameStart(m, i - 1, i);
    SameBlockStep(m[i - 1].code);
  }

  lemma SameBlockStep(c: nat)
    ensures (c + 1) % 256 != 0 ==> (c + 1) / 256 == c / 256
  {
  }

  /** An entry past the place where its stretch is entered is in the block of the one before. */
  lemma StartIsAhead(m: seq<Entry>, i: nat)
    requires Start(m, i) < i
    ensures InBlock(m, i)
  {
  }

  lemma ToldKind(m: seq<Entry>, i: nat)
    requires i < |m| && m[i].uni <= 0x10FFFF
    ensures Plausible(EmitAt(m, i))
    ensures Good(EmitAt(m, i)) <==> RightlyTold(m, i)
  {
    if RoleOf(m, i).OnRun? {
      RunMembers(m, i);
      var s := RunStart(m, i);
      RunEmitKind(m[i].code, m[s].uni, i - s);
    }
  }

  /** Told from the list: an entry in a run is told rightly when the run starts at no surrogate and counts up to it,
      any other when it is no surrogate itself. */
  predicate RightlyTold(m: seq<Entry>, i: nat)
    requires i < |m|
  {
    if RoleOf(m, i).OnRun? then
      !Surrogate(m[RunStart(m, i)].uni) && CountsUp(m[RunStart(m, i)].uni, i - RunStart(m, i))
    else !Surrogate(m[i].uni)
  }

  // ---------- The theorem ----------

  /** What LoadUnicode writes, read by the library. */
  function ReadBack(m: seq<Entry>): Table { Load(CMapWords(Compress(m)), Table([], [])) }

  function Emits(m: seq<Entry>): (es: seq<Emit>)
    ensures |es| == |Order(m)| && forall k :: 0 <= k < |es| ==> es[k] == EmitAt(m, Order(m)[k])
  {
    EmitsAt(m, Order(m))
  }

  lemma ReadsInOrder(m: seq<Entry>)
    requires Bounded(m)
    ensures ReadBack(m) == ApplyAll(Table([], []), Emits(m))
  {
    hide Shaped, Compress, AllEmits, CMapWords, Load, ApplyAll, Order, EmitsAt;
    TablesAreShaped(m);
    EmitsInOrder(m);
    LoadsStream(Compress(m));
  }

  lemma EmitsArePlausible(m: seq<Entry>)
    requires Bounded(m)
    ensures PairsOnly(Emits(m)) && forall k :: 0 <= k < |Order(m)| ==> Plausible(Emits(m)[k])
  {
    hide Plausible, Order, EmitsAt, Told;
    forall k | 0 <= k < |Order(m)| ensures Plausible(Emits(m)[k]) { ToldKind(m, Order(m)[k]); }
    PlausiblePairs(Emits(m));
  }

  lemma PlausiblePairs(es: seq<Emit>)
    requires forall k :: 0 <= k < |es| ==> Plausible(es[k])
    ensures PairsOnly(es)
  {
  }

  /** Place k of the order is the first where its code is told. */
  predicate FirstTold(m: seq<Entry>, k: nat)
    requires k < |Order(m)|
  {
    forall j :: 0 <= j < k ==> m[Order(m)[j]].code != m[Order(m)[k]].code
  }

  /** The number of values told before place k that go through the multi-character buffer. */
  function WideBefore(m: seq<Entry>, k: nat): nat
    requires k <= |Order(m)|
  {
    Rank(Emits(m), k)
  }

  /** What the reader answers for a code, on every multimap: the first value it was told. */
  lemma LookupIsFirstTold(m: seq<Entry>, k: nat)
    requires Bounded(m) && k < |Order(m)| && FirstTold(m, k)
    ensures var (i, found) := (Order(m)[k], Lookup(ReadBack(m), m[Order(m)[k]].code));
      match Told(m, i)
      case Direct(v) => if v % 0x10000 != 0xFFFF then found == [v % 0x10000] else v == 0xFFFF ==> |found| != 1
      case Wide(us) => found == if WideBefore(m, k) <= 21845 then us else [0]
  {
    hide ReadBack, Order, Told, Lookup, ApplyAll, Rank, EmitsAt, PairsOnly, Plausible;
    ReadsInOrder(m);
    EmitsArePlausible(m);
    FirstIsFirst(m, k);
    var es := Emits(m);
    if es[k].value.Direct? { LookupDirect(es, k); } else { WidePair(es, k); LookupWide(es, k); }
  }

  lemma WidePair(es: seq<Emit>, k: nat)
    requires k < |es| && PairsOnly(es) && es[k].value.Wide?
    ensures |es[k].value.units| == 2
  {
  }

  lemma FirstIsFirst(m: seq<Entry>, k: nat)
    requires k < |Order(m)|
    ensures FirstOfCode(Emits(m), k) <==> FirstTold(m, k)
  {
    hide Order, Told;
    forall j | 0 <= j <= k ensures Emits(m)[j].code == m[Order(m)[j]].code {}
  }

  /** Every entry's code is answered with the code units of its unicode. */
  predicate Recovers(m: seq<Entry>) {
    forall e :: e in m ==> Lookup(ReadBack(m), e.code) == Utf16(e.uni)
  }

  predicate OneUnicode(m: seq<Entry>) {
    forall i, j :: 0 <= i < |m| && 0 <= j < |m| && m[i].code == m[j].code ==> m[i].uni == m[j].uni
  }

  /** At place k of the order: the value is right, it is not the marker of the buffer, and the buffer's 16-bit index
      still reaches it. */
  predicate ReadsRight(m: seq<Entry>, k: nat)
    requires k < |Order(m)|
  {
    var i := Order(m)[k];
    RightlyTold(m, i) && m[i].uni != 0xFFFF && (Told(m, i).Wide? ==> WideBefore(m, k) <= 21845)
  }

  /** What the reader needs of the input. */
  predicate Readable(m: seq<Entry>) {
    OneUnicode(m) && forall k :: 0 <= k < |Order(m)| && FirstTold(m, k) ==> ReadsRight(m, k)
  }

  lemma Utf16Injective(u: nat, v: nat)
    requires u <= 0x10FFFF && v <= 0x10FFFF && Utf16(u) == Utf16(v)
    ensures u == v
  {
    assert u > 0xFFFF ==> Utf16(u)[0] == 0xD800 + (u - 0x10000) / 0x400 && Utf16(u)[1] == 0xDC00 + (u - 0x10000) % 0x400;
    assert v > 0xFFFF ==> Utf16(v)[0] == 0xD800 + (v - 0x10000) / 0x400 && Utf16(v)[1] == 0xDC00 + (v - 0x10000) % 0x400;
  }

  lemma AnswerIsRight(e: Emit, found: seq<nat>, reached: bool)
    requires Plausible(e) && e.uni <= 0x10FFFF
    requires match e.value
      case Direct(v) => if v % 0x10000 != 0xFFFF then found == [v % 0x10000] else v == 0xFFFF ==> |found| != 1
      case Wide(us) => found == if reached then us else [0]
    ensures found == Utf16(e.uni) <==> Good(e) && e.uni != 0xFFFF && (e.value.Wide? ==> reached)
  {
  }

  lemma FirstToldIff(m: seq<Entry>, k: nat)
    requires Bounded(m) && k < |Order(m)| && FirstTold(m, k)
    ensures var e := m[Order(m)[k]]; Lookup(ReadBack(m), e.code) == Utf16(e.uni) <==> ReadsRight(m, k)
  {
    hide ReadBack, Order, Told, Lookup, WideBefore, RightlyTold, Plausible, Good, Utf16;
    var i := Order(m)[k];
    LookupIsFirstTold(m, k);
    ToldKind(m, i);
    AnswerIsRight(EmitAt(m, i), Lookup(ReadBack(m), m[i].code), WideBefore(m, k) <= 21845);
  }

  lemma {:induction false} FirstPlace(m: seq<Entry>, k: nat) returns (f: nat)
    requires k < |Order(m)|
    ensures f <= k && m[Order(m)[f]].code == m[Order(m)[k]].code && FirstTold(m, f)
    decreases k
  {
    hide Order;
    if FirstTold(m, k) {
      f := k;
    } else {
      var j :| 0 <= j < k && m[Order(m)[j]].code == m[Order(m)[k]].code;
      f := FirstPlace(m, j);
    }
  }

  /** The stream LoadUnicode writes, read back by the library itself, maps every code to the unicode of each of its
      entries exactly when the multimap is Readable; for every multimap. */
  lemma ReaderRecoversIff(m: seq<Entry>)
    requires Bounded(m)
    ensures Recovers(m) <==> Readable(m)
  {
    hide ReadBack, Order, Lookup, ReadsRight, FirstTold, Utf16;
    if Recovers(m) {
      forall i, j | 0 <= i < |m| && 0 <= j < |m| && m[i].code == m[j].code ensures m[i].uni == m[j].uni {
        assert m[i] in m && m[j] in m;
        Utf16Injective(m[i].uni, m[j].uni);
      }
      forall k | 0 <= k < |Order(m)| && FirstTold(m, k) ensures ReadsRight(m, k) {
        assert m[Order(m)[k]] in m;
        FirstToldIff(m, k);
      }
    }
    if Readable(m) {
      forall e | e in m ensures Lookup(ReadBack(m), e.code) == Utf16(e.uni) {
        var i :| 0 <= i < |m| && m[i] == e;
        EveryCodeIsTold(m, i);
        var k :| 0 <= k < |Order(m)| && m[Order(m)[k]].code == m[i].code;
        var f := FirstPlace(m, k);
        FirstToldIff(m, f);
        assert m[Order(m)[f]].uni == m[i].uni;
      }
    }
  }

  // ---------- The same, entry by entry ----------

  /** The entry is read back wrongly whatever the rest: a surrogate that no run counts up to, or the entry at which a
      run steps out of the 16-bit numbers or to the next high surrogate. */
  predicate Broken(m: seq<Entry>, i: nat)
    requires i < |m|
  {
    (Surrogate(m[i].uni) && !Joins(m, i)) || (Joins(m, i) && m[i].uni >= 0x10000 && m[i].uni % 0x400 == 0)
  }

  lemma CountsUpTo(u: nat, d: nat) returns (c: nat)
    requires !CountsUp(u, d)
    ensures 0 < c <= d && u + c >= 0x10000 && (u + c) % 0x400 == 0
  {
    if u <= 0xFFFF { c := 0x10000 - u; } else { c := 0x400 - (u - 0x10000) % 0x400; }
  }

  lemma StepsOut(u: nat, d: nat)
    requires 0 < d <= 255 && u + d >= 0x10000 && (u + d) % 0x400 == 0
    ensures !CountsUp(u, d)
  {
  }

  lemma BrokenIsWrong(m: seq<Entry>, i: nat)
    requires i < |m| && Broken(m, i)
    ensures !RightlyTold(m, i)
  {
    hide Lone, InRun, RunStart;
    RolesApart(m, i);
    if InRun(m, i) {
      RunMembers(m, i);
      if Joins(m, i) && m[i].uni >= 0x10000 && m[i].uni % 0x400 == 0 {
        StepsOut(m[RunStart(m, i)].uni, i - RunStart(m, i));
      }
    }
  }

  lemma WrongIsBroken(m: seq<Entry>, i: nat) returns (k: nat)
    requires i < |m| && !RightlyTold(m, i)
    ensures k < |m| && Broken(m, k)
  {
    hide Lone, InRun, RunStart;
    RolesApart(m, i);
    k := i;
    if InRun(m, i) {
      RunMembers(m, i);
      var s := RunStart(m, i);
      if Surrogate(m[s].uni) {
        k := s;
      } else {
        var c := CountsUpTo(m[s].uni, i - s);
        k := s + c;
      }
    }
  }

  predicate NoRepeatedPair(m: seq<Entry>) { forall i, j :: 0 <= i < j < |m| ==> m[i] != m[j] }

  lemma {:induction false} AllSurvive(m: seq<Entry>, i: nat, p: (nat, nat) -> bool)
    requires UniqueCodes(m) && i <= |m|
    ensures CountSurvivors(m, i, p) == CountEntries(m[i..], p)
    decreases |m| - i
  {
    hide Lone;
    if i < |m| {
      AllSurvive(m, i + 1, p);
      assert m[i..][1..] == m[i + 1..];
      assert Survives(m, i);
    }
  }

  /** With unique codes the reader is told each entry once. */
  lemma EachToldOnce(m: seq<Entry>, p: (nat, nat) -> bool)
    requires Sorted(m) && UniqueCodes(m)
    ensures Count(Emits(m), p) == CountEntries(m, p)
  {
    hide Compress, AllEmits, EmitsAt, Order, CountSurvivors;
    EmitsInOrder(m);
    EachSurvivorToldOnce(m, p);
    AllSurvive(m, 0, p);
    assert m[0..] == m;
  }

  lemma AllFirstTold(m: seq<Entry>, k: nat)
    requires Bounded(m) && UniqueCodes(m) && k < |Order(m)|
    ensures FirstTold(m, k)
  {
    hide Order, Told;
    var es := Emits(m);
    forall j | 0 <= j < k ensures m[Order(m)[j]].code != m[Order(m)[k]].code {
      if m[Order(m)[j]].code == m[Order(m)[k]].code {
        var p := CodeIs(es[k].code);
        CountTwice(es, p, j, k);
        EachToldOnce(m, p);
        UniqueCounts(m, es[k].code);
      }
    }
  }

  lemma EachInOrder(m: seq<Entry>, i: nat) returns (k: nat)
    requires UniqueCodes(m) && i < |m|
    ensures k < |Order(m)| && Order(m)[k] == i
  {
    hide Order;
    EveryCodeIsTold(m, i);
    k :| 0 <= k < |Order(m)| && m[Order(m)[k]].code == m[i].code;
  }

  lemma {:induction false} RankIsCount(es: seq<Emit>)
    requires forall i :: 0 <= i < |es| ==> Good(es[i])
    ensures Rank(es, |es|) == Count(es, NeedsPair)
  {
    if es != [] { RankIsCount(es[1..]); }
  }

  lemma {:induction false} RankGrows(es: seq<Emit>, k: nat)
    requires k < |es|
    ensures Rank(es, k) + (if es[k].value.Wide? then 1 else 0) <= Rank(es, |es|)
  {
    if k > 0 { RankGrows(es[1..], k - 1); }
  }

  lemma {:induction false} LastWide(es: seq<Emit>) returns (k: nat)
    requires Rank(es, |es|) > 0
    ensures k < |es| && es[k].value.Wide? && Rank(es, k) + 1 == Rank(es, |es|)
  {
    if Rank(es[1..], |es| - 1) > 0 {
      k := LastWide(es[1..]);
      k := k + 1;
    } else {
      k := 0;
    }
  }

  /** With all values right, the buffer reaches every pair exactly when there are no more than it can index. */
  lemma BufferReaches(m: seq<Entry>)
    requires Bounded(m) && UniqueCodes(m) && forall i :: 0 <= i < |m| ==> RightlyTold(m, i)
    ensures (forall k :: 0 <= k < |Order(m)| && Told(m, Order(m)[k]).Wide? ==> WideBefore(m, k) <= 21845)
       <==> CountEntries(m, NeedsPair) <= 21846
  {
    hide Order, Told, RightlyTold, Good, Rank;
    var es := Emits(m);
    forall k | 0 <= k < |es| ensures Good(es[k]) { ToldKind(m, Order(m)[k]); }
    RankIsCount(es);
    EachToldOnce(m, NeedsPair);
    forall k | 0 <= k < |es| ensures WideBefore(m, k) + (if es[k].value.Wide? then 1 else 0) <= Rank(es, |es|) {
      RankGrows(es, k);
    }
    if CountEntries(m, NeedsPair) > 21846 {
      var k := LastWide(es);
      assert Told(m, Order(m)[k]).Wide? && WideBefore(m, k) > 21845;
    }
  }

  lemma OneUnicodeIsUnique(m: seq<Entry>)
    requires Sorted(m) && NoRepeatedPair(m)
    ensures OneUnicode(m) <==> UniqueCodes(m)
  {
    if OneUnicode(m) {
      forall i, j | 0 <= i < j < |m| ensures m[i].code < m[j].code { assert m[i] != m[j]; }
    }
    if UniqueCodes(m) {
      forall i, j | 0 <= i < |m| && 0 <= j < |m| && m[i].code == m[j].code ensures m[i].uni == m[j].uni {
        assert i == j;
      }
    }
  }

  /** With unique codes every place of the order counts, and every entry has one. */
  lemma ReadableEntryByEntry(m: seq<Entry>)
    requires Bounded(m) && UniqueCodes(m)
    ensures (forall k :: 0 <= k < |Order(m)| && FirstTold(m, k) ==> ReadsRight(m, k)) <==>
      && (forall i :: 0 <= i < |m| ==> RightlyTold(m, i) && m[i].uni != 0xFFFF)
      && (forall k :: 0 <= k < |Order(m)| && Told(m, Order(m)[k]).Wide? ==> WideBefore(m, k) <= 21845)
  {
    hide Order, RightlyTold, WideBefore, Told, UniqueCodes, FirstTold;
    forall k | 0 <= k < |Order(m)| ensures FirstTold(m, k) { AllFirstTold(m, k); }
    if forall k :: 0 <= k < |Order(m)| && FirstTold(m, k) ==> ReadsRight(m, k) {
      forall i | 0 <= i < |m| ensures RightlyTold(m, i) && m[i].uni != 0xFFFF {
        var k := EachInOrder(m, i);
        assert ReadsRight(m, k);
      }
      forall k | 0 <= k < |Order(m)| && Told(m, Order(m)[k]).Wide? ensures WideBefore(m, k) <= 21845 {
        assert ReadsRight(m, k);
      }
    }
  }

  /** For every multimap that holds no pair twice, as the character map of a font does, from the entries alone: every
      code is read back exactly when no code has two unicodes, none is 0xFFFF, no entry is broken, and no more than
      21846 are beyond the 16-bit range. */
  lemma RecoversIffNoneBroken(m: seq<Entry>)
    requires Bounded(m) && NoRepeatedPair(m)
    ensures Recovers(m) <==>
      && UniqueCodes(m)
      && (forall i :: 0 <= i < |m| ==> m[i].uni != 0xFFFF && !Broken(m, i))
      && CountEntries(m, NeedsPair) <= 21846
  {
    hide Recovers, Order, Broken, RightlyTold, WideBefore, Told, UniqueCodes, FirstTold, ReadsRight, OneUnicode;
    ReaderRecoversIff(m);
    OneUnicodeIsUnique(m);
    if UniqueCodes(m) {
      ReadableEntryByEntry(m);
      RightExactlyUnbroken(m);
      if forall i :: 0 <= i < |m| ==> RightlyTold(m, i) { BufferReaches(m); }
    }
  }

  lemma RightExactlyUnbroken(m: seq<Entry>)
    ensures (forall i :: 0 <= i < |m| ==> RightlyTold(m, i)) <==> (forall i :: 0 <= i < |m| ==> !Broken(m, i))
  {
    hide Broken, RightlyTold;
    forall i | 0 <= i < |m| && Broken(m, i) ensures !RightlyTold(m, i) { BrokenIsWrong(m, i); }
    forall i | 0 <= i < |m| && !RightlyTold(m, i) ensures exists k :: 0 <= k < |m| && Broken(m, k) {
      var k := WrongIsBroken(m, i);
    }
  }

  // ---------- Inputs that are not read back ----------

  lemma TwoEntries(m: seq<Entry>)
    requires |m| == 2 && m[1].code == m[0].code + 1 && m[1].code % 256 != 0 && m[1].uni == m[0].uni + 1
    ensures Joins(m, 1)
  {
    assert Stretch(m, 0) == 0 && Start(m, 0) == 0;
    SameStart(m, 0, 1);
    assert Counts(m, 1) && InBlock(m, 1);
    assert ThroughRuns(m, 0, 2);
    assert RunStart(m, 1) == RunStart(m, 0) == 0;
  }

  /** Codes 1 and 2 for U+103FF and U+10400, the last and first characters under two high surrogates: they are
      written as one run, and the reader counts the low surrogate past its end. */
  lemma RunAcrossSurrogatesFails()
    ensures var m := [Entry(1, 0x103FF), Entry(2, 0x10400)]; Bounded(m) && !Recovers(m)
  {
    var m := [Entry(1, 0x103FF), Entry(2, 0x10400)];
    TwoEntries(m);
    hide Recovers;
    RecoversIffNoneBroken(m);
    assert Broken(m, 1);
  }

  /** A surrogate by itself is written as 0. */
  lemma LoneSurrogateFails()
    ensures var m := [Entry(1, 0xD800)]; Bounded(m) && !Recovers(m)
  {
    var m := [Entry(1, 0xD800)];
    hide Recovers;
    RecoversIffNoneBroken(m);
    assert !Joins(m, 0);
    assert Broken(m, 0);
  }

  /** A space and a no-break space that share glyph 3: the reader knows the glyph as one of them only. */
  lemma SharedGlyphFails()
    ensures var m := [Entry(3, 0x20), Entry(3, 0xA0)]; Bounded(m) && !Recovers(m)
  {
    var m := [Entry(3, 0x20), Entry(3, 0xA0)];
    hide Recovers;
    RecoversIffNoneBroken(m);
    assert m[0].code == m[1].code;
  }
}
