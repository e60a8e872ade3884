/** The library's reader applied to the stream LoadUnicode writes: which codes it maps back. */
module CMapRoundTrip {
  import opened Basics
  import opened Sequences
  import opened ToUnicode
  import opened CMapReader
  import opened CMapText
  import opened Numerals

  datatype Value = Direct(value: nat) | Wide(units: seq<nat>)

  /** One mapping the reader stores, with the unicode it stands for. */
  datatype Emit = Emit(code: nat, uni: nat, value: Value)

  function Apply(t: Table, e: Emit): Table {
    match e.value
    case Direct(v) => StoreDirect(t, e.code, v)
    case Wide(units) => StoreWide(t, e.code, units)
  }

  function ApplyAll(t: Table, es: seq<Emit>): Table
    decreases es
  {
    if es == [] then t else ApplyAll(Apply(t, es[0]), es[1..])
  }

  lemma {:induction false} ApplyAllConcat(t: Table, a: seq<Emit>, b: seq<Emit>)
    ensures ApplyAll(t, a + b) == ApplyAll(ApplyAll(t, a), b)
    decreases a
  {
    if a == [] {
      assert a + b == b;
    } else {
      ApplyAllConcat(Apply(t, a[0]), a[1..], b);
      assert (a + b)[1..] == a[1..] + b;
    }
  }

  function ValueOf(units: seq<nat>): Value
    requires units != []
  {
    if |units| == 1 then Direct(units[0]) else Wide(units)
  }

  function CharEmit(c: nat, u: nat): Emit
  {
    Emit(c, u, ValueOf(Utf16(Clean(u))))
  }

  function CharEmits(cs: seq<(nat, nat)>): seq<Emit>
  {
    if cs == [] then [] else [CharEmit(cs[0].0, cs[0].1)] + CharEmits(cs[1..])
  }

  function ListEmits(code: nat, us: seq<nat>): seq<Emit>
    decreases us
  {
    if us == [] then [] else [CharEmit(code, us[0])] + ListEmits(code + 1, us[1..])
  }

  function ListsEmits(ls: seq<((nat, nat), seq<nat>)>): seq<Emit>
  {
    if ls == [] then [] else ListEmits(ls[0].0.0, ls[0].1) + ListsEmits(ls[1..])
  }

  /** The i-th value the reader gives a run that starts at u: it counts up the number, or the low surrogate. */
  function RunValue(u: nat, i: nat): Value
  {
    if Clean(u) <= 0xFFFF then Direct(Clean(u) + i) else Wide([Utf16(u)[0], Utf16(u)[1] + i])
  }

  function RunEmits(lo: nat, hi: nat, u: nat, i: nat): seq<Emit>
    decreases hi + 1 - lo - i
  {
    if lo + i > hi then [] else [Emit(lo + i, u + i, RunValue(u, i))] + RunEmits(lo, hi, u, i + 1)
  }

  function RunsEmits(rs: seq<((nat, nat), nat)>): seq<Emit>
  {
    if rs == [] then [] else RunEmits(rs[0].0.0, rs[0].0.1, rs[0].1, 0) + RunsEmits(rs[1..])
  }

  function AllEmits(t: Tables): seq<Emit>
  {
    CharEmits(t.chars) + ListsEmits(t.lists) + RunsEmits(t.runs)
  }

  // ---------- The reader's pass over the printed words ----------

  lemma StoreEmit(t: Table, c: nat, u: nat)
    ensures SetCode(t, c, StringToWideString(UniWord(u))) == Apply(t, CharEmit(c, u))
  {
    UniWordReads(u);
  }

  lemma OneWord(w: string, ws: seq<string>)
    ensures Word([w] + ws) == w && Rest([w] + ws) == ws
  {
  }

  lemma ThreeWords(a: string, b: string, c: string, ws: seq<string>)
    ensures var all := [a, b, c] + ws;
      Word(all) == a && Word(Rest(all)) == b && Word(Rest(Rest(all))) == c && Rest(Rest(Rest(all))) == ws
  {
  }

  lemma {:induction false} ReadsChars(cs: seq<(nat, nat)>, rest: seq<string>, t: Table)
    requires CharsShaped(cs)
    ensures HandleBeginBFChar(CharWords(cs) + (["endbfchar"] + rest), t) == (rest, ApplyAll(t, CharEmits(cs)))
    decreases cs
  {
    var ws := CharWords(cs) + (["endbfchar"] + rest);
    if cs == [] {
      assert ws == ["endbfchar"] + rest;
      assert Rest(ws) == rest;
    } else {
      var tail := CharWords(cs[1..]) + (["endbfchar"] + rest);
      Regroup([CodeWord(cs[0].0), UniWord(cs[0].1)], CharWords(cs[1..]), ["endbfchar"] + rest);
      assert ws == [CodeWord(cs[0].0), UniWord(cs[0].1)] + tail;
      assert Rest(Rest(ws)) == tail;
      CodeWordReads(cs[0].0);
      StoreEmit(t, cs[0].0, cs[0].1);
      assert CodeWord(cs[0].0)[0] == '<';
      ReadsChars(cs[1..], rest, Apply(t, CharEmit(cs[0].0, cs[0].1)));
    }
  }

  predicate Stores(w: string, e: Emit) {
    StringToWideString(w) != [] && e.value == ValueOf(StringToWideString(w))
  }

  lemma ReadListStep(w: string, ws: seq<string>, e: Emit, t: Table, high: nat)
    requires e.code <= high && Stores(w, e)
    ensures ReadList([w] + ws, t, e.code, high) == ReadList(ws, Apply(t, e), e.code + 1, high)
  {
    OneWord(w, ws);
  }

  /** The words of a list, one per code, store the emits es. */
  predicate WordsStore(ws: seq<string>, es: seq<Emit>, code: nat) {
    && |ws| == |es|
    && forall i :: 0 <= i < |ws| ==> Stores(ws[i], es[i]) && es[i].code == code + i
  }

  lemma {:induction false} ReadsWords(ws: seq<string>, rest: seq<string>, es: seq<Emit>, t: Table, code: nat, high: nat)
    requires WordsStore(ws, es, code) && high + 1 == code + |ws|
    ensures ReadList(ws + rest, t, code, high) == (rest, ApplyAll(t, es))
    decreases ws
  {
    hide StringToWideString, Apply, SetCode;
    if ws == [] {
      assert ws + rest == rest;
    } else {
      assert ws == [ws[0]] + ws[1..];
      Regroup([ws[0]], ws[1..], rest);
      ReadListStep(ws[0], ws[1..] + rest, es[0], t, high);
      ReadsWords(ws[1..], rest, es[1..], Apply(t, es[0]), code + 1, high);
    }
  }

  lemma {:induction false} ListWordsStore(us: seq<nat>, code: nat)
    ensures WordsStore(UniWords(us), ListEmits(code, us), code)
    decreases us
  {
    if us != [] {
      UniWordReads(us[0]);
      ListWordsStore(us[1..], code + 1);
    }
  }

  lemma {:induction false} ReadsRun(t: Table, lo: nat, hi: nat, u: nat, i: nat)
    requires Clean(u) <= 0xFFFF && lo + i <= hi + 1 && hi <= 0xFFFF
    ensures ReadRun(t, lo + i, hi, Clean(u) + i) == ApplyAll(t, RunEmits(lo, hi, u, i))
    decreases hi + 1 - lo - i
  {
    if lo + i <= hi {
      var e := Emit(lo + i, u + i, RunValue(u, i));
      assert RunEmits(lo, hi, u, i) == [e] + RunEmits(lo, hi, u, i + 1);
      ReadsRun(Apply(t, e), lo, hi, u, i + 1);
    }
  }

  lemma {:induction false} ReadsWideRun(t: Table, lo: nat, hi: nat, u: nat, i: nat)
    requires Clean(u) > 0xFFFF && lo + i <= hi + 1 && hi <= 0xFFFF
    ensures ReadWideRun(t, lo + i, hi, [Utf16(u)[0], Utf16(u)[1] + i]) == ApplyAll(t, RunEmits(lo, hi, u, i))
    decreases hi + 1 - lo - i
  {
    if lo + i <= hi {
      var e := Emit(lo + i, u + i, RunValue(u, i));
      assert RunEmits(lo, hi, u, i) == [e] + RunEmits(lo, hi, u, i + 1);
      var units := [Utf16(u)[0], Utf16(u)[1] + i];
      assert StringDataAdd(units) == [Utf16(u)[0], Utf16(u)[1] + (i + 1)] by {
        assert units[..1] == [Utf16(u)[0]];
      }
      ReadsWideRun(Apply(t, e), lo, hi, u, i + 1);
    }
  }

  /** What LoadUnicode guarantees of its tables: codes have two bytes, and no range leaves its block of 256 codes. */
  predicate Shaped(t: Tables) {
    && CharsShaped(t.chars)
    && (forall i :: 0 <= i < |t.lists| ==> ListShaped(t.lists[i]))
    && (forall i :: 0 <= i < |t.runs| ==> RunShaped(t.runs[i]))
  }

  predicate CharsShaped(cs: seq<(nat, nat)>) {
    forall i :: 0 <= i < |cs| ==> cs[i].0 <= 0xFFFF
  }

  predicate ListShaped(l: ((nat, nat), seq<nat>)) {
    l.0.1 + 1 == l.0.0 + |l.1| && l.0.0 <= l.0.1 <= 0xFFFF && l.0.0 / 256 == l.0.1 / 256
  }

  predicate RunShaped(r: ((nat, nat), nat)) {
    r.0.0 <= r.0.1 <= 0xFFFF && r.0.0 / 256 == r.0.1 / 256
  }

  lemma HighByte(low: nat, high: nat)
    requires low / 256 == high / 256
    ensures low - low % 256 + high % 256 == high
  {
  }

  lemma RunStep(w1: string, w2: string, w3: string, tail: seq<string>, t: Table, lo: nat, hi: nat)
    requires w1 != "" && w1 != "endbfrange" && w3 != "["
    requires StringToCode(w1) == Some(lo) && StringToCode(w2) == Some(hi) && lo / 256 == hi / 256
    requires |StringToWideString(w3)| == 1 ==> StringToCode(w3).Some?
    ensures HandleBeginBFRange([w1, w2, w3] + tail, t) == HandleBeginBFRange(tail,
              if |StringToWideString(w3)| == 1 then ReadRun(t, lo, hi, StringToCode(w3).value)
              else ReadWideRun(t, lo, hi, StringToWideString(w3)))
  {
    ThreeWords(w1, w2, w3, tail);
    hide HandleBeginBFRange, Word, Rest, StringToCode, StringToWideString;
    RunStepOn([w1, w2, w3] + tail, w3, t, lo, hi);
  }

  lemma RunStepOn(ws: seq<string>, w3: string, t: Table, lo: nat, hi: nat)
    requires Word(ws) != "" && Word(ws) != "endbfrange" && Word(Rest(Rest(ws))) == w3 != "["
    requires StringToCode(Word(ws)) == Some(lo) && StringToCode(Word(Rest(ws))) == Some(hi) && lo / 256 == hi / 256
    requires |StringToWideString(w3)| == 1 ==> StringToCode(w3).Some?
    ensures HandleBeginBFRange(ws, t) == HandleBeginBFRange(Rest(Rest(Rest(ws))),
              if |StringToWideString(w3)| == 1 then ReadRun(t, lo, hi, StringToCode(w3).value)
              else ReadWideRun(t, lo, hi, StringToWideString(w3)))
  {
    hide Word, Rest, StringToCode, StringToWideString, ReadList, ReadRun, ReadWideRun;
    HighByte(lo, hi);
  }

  lemma RunStores(w3: string, u: nat, t: Table, lo: nat, hi: nat)
    requires lo <= hi <= 0xFFFF && StringToWideString(w3) == Utf16(Clean(u))
    requires Clean(u) <= 0xFFFF ==> StringToCode(w3) == Some(Clean(u))
    ensures ApplyAll(t, RunEmits(lo, hi, u, 0)) ==
              if |StringToWideString(w3)| == 1 then ReadRun(t, lo, hi, StringToCode(w3).value)
              else ReadWideRun(t, lo, hi, StringToWideString(w3))
  {
    if Clean(u) <= 0xFFFF { ReadsRun(t, lo, hi, u, 0); } else { ReadsWideRun(t, lo, hi, u, 0); }
  }

  lemma ReadsOneRun(lo: nat, hi: nat, u: nat, tail: seq<string>, t: Table)
    requires RunShaped(((lo, hi), u))
    ensures HandleBeginBFRange([CodeWord(lo), CodeWord(hi), UniWord(u)] + tail, t)
         == HandleBeginBFRange(tail, ApplyAll(t, RunEmits(lo, hi, u, 0)))
  {
    CodeWordReads(lo); CodeWordReads(hi); UniWordReads(u);
    assert CodeWord(lo)[0] == '<';
    RunStores(UniWord(u), u, t, lo, hi);
    RunStep(CodeWord(lo), CodeWord(hi), UniWord(u), tail, t, lo, hi);
  }

  lemma {:induction false} ReadsRuns(rs: seq<((nat, nat), nat)>, rest: seq<string>, t: Table)
    requires forall i :: 0 <= i < |rs| ==> RunShaped(rs[i])
    ensures HandleBeginBFRange(RunWords(rs) + (["endbfrange"] + rest), t) == (rest, ApplyAll(t, RunsEmits(rs)))
    decreases rs
  {
    var end := ["endbfrange"] + rest;
    if rs == [] {
      assert RunWords(rs) + end == end;
      OneWord("endbfrange", rest);
    } else {
      var emits := RunEmits(rs[0].0.0, rs[0].0.1, rs[0].1, 0);
      Regroup([CodeWord(rs[0].0.0), CodeWord(rs[0].0.1), UniWord(rs[0].1)], RunWords(rs[1..]), end);
      ReadsOneRun(rs[0].0.0, rs[0].0.1, rs[0].1, RunWords(rs[1..]) + end, t);
      ReadsRuns(rs[1..], rest, ApplyAll(t, emits));
      ApplyAllConcat(t, emits, RunsEmits(rs[1..]));
    }
  }

  lemma ListStepOn(ws: seq<string>, rest: seq<string>, t: Table, t': Table, lo: nat, hi: nat)
    requires Word(ws) != "" && Word(ws) != "endbfrange" && Word(Rest(Rest(ws))) == "["
    requires StringToCode(Word(ws)) == Some(lo) && StringToCode(Word(Rest(ws))) == Some(hi) && lo / 256 == hi / 256
    requires ReadList(Rest(Rest(Rest(ws))), t, lo, hi) == (rest, t')
    ensures HandleBeginBFRange(ws, t) == HandleBeginBFRange(Rest(rest), t')
  {
    hide Word, Rest, StringToCode, StringToWideString, ReadList, ReadRun, ReadWideRun;
    HighByte(lo, hi);
  }

  lemma ListStep(w1: string, w2: string, list: seq<string>, after: seq<string>, t: Table, t': Table, lo: nat, hi: nat)
    requires w1 != "" && w1 != "endbfrange"
    requires StringToCode(w1) == Some(lo) && StringToCode(w2) == Some(hi) && lo / 256 == hi / 256
    requires ReadList(list + (["]"] + after), t, lo, hi) == (["]"] + after, t')
    ensures HandleBeginBFRange([w1, w2, "["] + (list + (["]"] + after)), t) == HandleBeginBFRange(after, t')
  {
    ThreeWords(w1, w2, "[", list + (["]"] + after));
    OneWord("]", after);
    hide HandleBeginBFRange, Word, Rest, StringToCode, ReadList;
    ListStepOn([w1, w2, "["] + (list + (["]"] + after)), ["]"] + after, t, t', lo, hi);
  }

  lemma ReadsOneList(l: ((nat, nat), seq<nat>), after: seq<string>, t: Table)
    requires ListShaped(l)
    ensures HandleBeginBFRange(ListItem(l) + after, t) == HandleBeginBFRange(after, ApplyAll(t, ListEmits(l.0.0, l.1)))
  {
    var ((lo, hi), us) := l;
    ListItemSplit(l, after);
    CodeWordReads(lo); CodeWordReads(hi);
    assert CodeWord(lo)[0] == '<';
    ListWordsStore(us, lo);
    ReadsWords(UniWords(us), ["]"] + after, ListEmits(lo, us), t, lo, hi);
    ListStep(CodeWord(lo), CodeWord(hi), UniWords(us), after, t, ApplyAll(t, ListEmits(lo, us)), lo, hi);
  }

  lemma {:induction false} ReadsLists(ls: seq<((nat, nat), seq<nat>)>, tail: seq<string>, t: Table)
    requires forall i :: 0 <= i < |ls| ==> ListShaped(ls[i])
    ensures HandleBeginBFRange(ListWords(ls) + tail, t) == HandleBeginBFRange(tail, ApplyAll(t, ListsEmits(ls)))
    decreases ls
  {
    if ls == [] {
      assert ListWords(ls) + tail == tail;
    } else {
      var emits := ListEmits(ls[0].0.0, ls[0].1);
      Regroup(ListItem(ls[0]), ListWords(ls[1..]), tail);
      ReadsOneList(ls[0], ListWords(ls[1..]) + tail, t);
      ReadsLists(ls[1..], tail, ApplyAll(t, emits));
      ApplyAllConcat(t, emits, ListsEmits(ls[1..]));
    }
  }

  lemma ListItemSplit(l: ((nat, nat), seq<nat>), after: seq<string>)
    ensures ListItem(l) + after == [CodeWord(l.0.0), CodeWord(l.0.1), "["] + (UniWords(l.1) + (["]"] + after))
  {
    var head := [CodeWord(l.0.0), CodeWord(l.0.1), "["];
    Regroup(head + UniWords(l.1), ["]"], after);
    Regroup(head, UniWords(l.1), ["]"] + after);
  }

  // ---------- The whole stream ----------

  /** Words that open no section. */
  predicate Plain(w: string) {
    w != "" && w != "beginbfchar" && w != "beginbfrange"
  }

  lemma {:induction false} SkipsPlain(ws: seq<string>, rest: seq<string>, t: Table)
    requires forall i :: 0 <= i < |ws| ==> Plain(ws[i])
    ensures Load(ws + rest, t) == Load(rest, t)
  {
    if ws == [] {
      assert ws + rest == rest;
    } else {
      assert ws + rest == [ws[0]] + (ws[1..] + rest);
      OneWord(ws[0], ws[1..] + rest);
      SkipsPlain(ws[1..], rest, t);
    }
  }

  lemma DecimalIsPlain(n: nat)
    ensures Plain(Decimal(n))
  {
    assert IsDigit(Decimal(n)[0]) && "beginbfchar"[0] == 'b' && "beginbfrange"[0] == 'b';
  }

  lemma LoadsRangeSection(count: string, t: Tables, rest: seq<string>, tab: Table)
    requires Plain(count) && Shaped(t)
    ensures Load([count, "beginbfrange"] + (ListWords(t.lists) + (RunWords(t.runs) + (["endbfrange"] + rest))), tab)
         == Load(rest, ApplyAll(tab, ListsEmits(t.lists) + RunsEmits(t.runs)))
  {
    var tail := RunWords(t.runs) + (["endbfrange"] + rest);
    SkipTwo(count, "beginbfrange", ListWords(t.lists) + tail);
    ReadsLists(t.lists, tail, tab);
    ReadsRuns(t.runs, rest, ApplyAll(tab, ListsEmits(t.lists)));
    ApplyAllConcat(tab, ListsEmits(t.lists), RunsEmits(t.runs));
  }

  lemma SectionsSplit(t: Tables, rest: seq<string>)
    ensures Sections(t) + rest
         == [Decimal(|t.chars|), "beginbfchar"] + (CharWords(t.chars) + (["endbfchar"]
            + ([Decimal(|t.lists| + |t.runs|), "beginbfrange"]
               + (ListWords(t.lists) + (RunWords(t.runs) + (["endbfrange"] + rest))))))
  {
    hide CharWords, ListWords, RunWords, Decimal;
    RegroupSeven([Decimal(|t.chars|), "beginbfchar"], CharWords(t.chars), ["endbfchar"],
      [Decimal(|t.lists| + |t.runs|), "beginbfrange"], ListWords(t.lists), RunWords(t.runs), ["endbfrange"], rest);
  }

  lemma LoadsSections(t: Tables, rest: seq<string>, tab: Table)
    requires Shaped(t)
    ensures Load(Sections(t) + rest, tab) == Load(rest, ApplyAll(tab, AllEmits(t)))
  {
    var after := [Decimal(|t.lists| + |t.runs|), "beginbfrange"]
                 + (ListWords(t.lists) + (RunWords(t.runs) + (["endbfrange"] + rest)));
    SectionsSplit(t, rest);
    DecimalIsPlain(|t.chars|);
    DecimalIsPlain(|t.lists| + |t.runs|);
    LoadsCharSection(Decimal(|t.chars|), t.chars, after, tab);
    LoadsRangeSection(Decimal(|t.lists| + |t.runs|), t, rest, ApplyAll(tab, CharEmits(t.chars)));
    ApplyAllConcat(tab, CharEmits(t.chars), ListsEmits(t.lists) + RunsEmits(t.runs));
    Regroup(CharEmits(t.chars), ListsEmits(t.lists), RunsEmits(t.runs));
  }

  lemma SkipTwo(a: string, b: string, ws: seq<string>)
    ensures var all := [a, b] + ws; Word(all) == a && Word(Rest(all)) == b && Rest(Rest(all)) == ws
  {
  }

  lemma LoadsCharSection(count: string, cs: seq<(nat, nat)>, after: seq<string>, tab: Table)
    requires Plain(count) && CharsShaped(cs)
    ensures Load([count, "beginbfchar"] + (CharWords(cs) + (["endbfchar"] + after)), tab)
         == Load(after, ApplyAll(tab, CharEmits(cs)))
  {
    SkipTwo(count, "beginbfchar", CharWords(cs) + (["endbfchar"] + after));
    ReadsChars(cs, after, tab);
  }

  lemma HeaderAndFooterArePlain()
    ensures forall i :: 0 <= i < |HEADER| ==> Plain(HEADER[i])
    ensures forall i :: 0 <= i < |FOOTER| ==> Plain(FOOTER[i])
  {
  }

  lemma LoadsBetween(header: seq<string>, body: seq<string>, footer: seq<string>, tab: Table, tab': Table)
    requires forall i :: 0 <= i < |header| ==> Plain(header[i])
    requires forall i :: 0 <= i < |footer| ==> Plain(footer[i])
    requires Load(body + footer, tab) == Load(footer, tab')
    ensures Load(header + body + footer, tab) == tab'
  {
    Regroup(header, body, footer);
    SkipsPlain(header, body + footer, tab);
    assert footer == footer + [];
    SkipsPlain(footer, [], tab');
  }

  /** What the reader stores for the whole printed stream. */
  lemma LoadsStream(t: Tables)
    requires Shaped(t)
    ensures Load(CMapWords(t), Table([], [])) == ApplyAll(Table([], []), AllEmits(t))
  {
    HeaderAndFooterArePlain();
    LoadsSections(t, FOOTER, Table([], []));
    LoadsBetween(HEADER, Sections(t), FOOTER, Table([], []), ApplyAll(Table([], []), AllEmits(t)));
  }
}
