/** The ToUnicode stream as the sequence of its words, and what the library's reader makes of it. */
module CMapText {
  import opened Basics
  import opened Numerals
  import opened ToUnicode
  import opened CMapReader
  import opened Sequences

  const HEADER: seq<string> := [
    "/CIDInit", "/ProcSet", "findresource", "begin", "12", "dict", "begin", "begincmap", "/CIDSystemInfo",
    "<<", "/Registry", "(Adobe)", "/Ordering", "(Identity)", "/Supplement", "0", ">>", "def",
    "/CMapName", "/Adobe-Identity-H", "def", "CMapType", "2", "def",
    "1", "begincodespacerange", "<0000>", "<FFFFF>", "endcodespacerange"]

  const FOOTER: seq<string> := [
    "endcmap", "CMapName", "currentdict", "/CMap", "defineresource", "pop", "end", "end"]

  predicate Surrogate(u: nat) { 0xD800 <= u <= 0xDFFF }

  function Clean(u: nat): nat { if Surrogate(u) then 0 else u }

  /** The UTF-16 code units of a unicode (section 2 of RFC 2781). */
  function Utf16(u: nat): (r: seq<nat>)
    ensures |r| == if u <= 0xFFFF then 1 else 2
    ensures forall i :: 0 <= i < |r| ==> r[i] <= 0xFFFF
  {
    if u <= 0xFFFF then [u] else [(0xD800 + (u - 0x10000) / 0x400) % 0x10000, 0xDC00 + (u - 0x10000) % 0x400]
  }

  function HexAll(units: seq<nat>): string {
    if units == [] then "" else Hex4(units[0]) + HexAll(units[1..])
  }

  function CodeWord(c: nat): string {
    "<" + Hex4(c) + ">"
  }

  function UniWord(u: nat): string {
    "<" + HexAll(Utf16(Clean(u))) + ">"
  }

  // ---------- Printing ----------

  function CharWords(cs: seq<(nat, nat)>): seq<string>
  {
    if cs == [] then [] else [CodeWord(cs[0].0), UniWord(cs[0].1)] + CharWords(cs[1..])
  }

  function UniWords(us: seq<nat>): (ws: seq<string>)
    ensures |ws| == |us|
  {
    if us == [] then [] else [UniWord(us[0])] + UniWords(us[1..])
  }

  function ListItem(l: ((nat, nat), seq<nat>)): seq<string>
  {
    [CodeWord(l.0.0), CodeWord(l.0.1), "["] + UniWords(l.1) + ["]"]
  }

  function ListWords(ls: seq<((nat, nat), seq<nat>)>): seq<string>
  {
    if ls == [] then []
    else ListItem(ls[0]) + ListWords(ls[1..])
  }

  function RunWords(rs: seq<((nat, nat), nat)>): seq<string>
  {
    if rs == [] then [] else [CodeWord(rs[0].0.0), CodeWord(rs[0].0.1), UniWord(rs[0].1)] + RunWords(rs[1..])
  }

  /** The two mapping sections, each announced by its number of entries. */
  function Sections(t: Tables): seq<string>
  {
    [Decimal(|t.chars|), "beginbfchar"] + CharWords(t.chars)
    + ["endbfchar"] + [Decimal(|t.lists| + |t.runs|), "beginbfrange"] + ListWords(t.lists) + RunWords(t.runs)
    + ["endbfrange"]
  }

  function CMapWords(t: Tables): seq<string>
  {
    HEADER + Sections(t) + FOOTER
  }

  method WriteChars(buffer: seq<string>, cs: seq<(nat, nat)>) returns (out: seq<string>)
    ensures out == buffer + CharWords(cs)
  {
    out := buffer;
    var i := 0;
    while i < |cs|
      invariant i <= |cs| && out + CharWords(cs[i..]) == buffer + CharWords(cs)
    {
      assert cs[i..][1..] == cs[i + 1..];
      Regroup(out, [CodeWord(cs[i].0), UniWord(cs[i].1)], CharWords(cs[i + 1..]));
      out := out + [CodeWord(cs[i].0), UniWord(cs[i].1)];
      i := i + 1;
    }
  }

  method WriteUnicodes(buffer: seq<string>, us: seq<nat>) returns (out: seq<string>)
    ensures out == buffer + UniWords(us)
  {
    out := buffer;
    var i := 0;
    while i < |us|
      invariant i <= |us| && out + UniWords(us[i..]) == buffer + UniWords(us)
    {
      assert us[i..][1..] == us[i + 1..];
      Regroup(out, [UniWord(us[i])], UniWords(us[i + 1..]));
      out := out + [UniWord(us[i])];
      i := i + 1;
    }
  }

  method WriteList(buffer: seq<string>, l: ((nat, nat), seq<nat>)) returns (out: seq<string>)
    ensures out == buffer + ListItem(l)
  {
    out := buffer + [CodeWord(l.0.0), CodeWord(l.0.1), "["];
    out := WriteUnicodes(out, l.1);
    out := out + ["]"];
  }

  method WriteLists(buffer: seq<string>, ls: seq<((nat, nat), seq<nat>)>) returns (out: seq<string>)
    ensures out == buffer + ListWords(ls)
  {
    out := buffer;
    var i := 0;
    while i < |ls|
      invariant i <= |ls| && out + ListWords(ls[i..]) == buffer + ListWords(ls)
    {
      assert ls[i..][1..] == ls[i + 1..];
      Regroup(out, ListItem(ls[i]), ListWords(ls[i + 1..]));
      out := WriteList(out, ls[i]);
      i := i + 1;
    }
  }

  method WriteRuns(buffer: seq<string>, rs: seq<((nat, nat), nat)>) returns (out: seq<string>)
    ensures out == buffer + RunWords(rs)
  {
    out := buffer;
    var i := 0;
    while i < |rs|
      invariant i <= |rs| && out + RunWords(rs[i..]) == buffer + RunWords(rs)
    {
      assert rs[i..][1..] == rs[i + 1..];
      Regroup(out, [CodeWord(rs[i].0.0), CodeWord(rs[i].0.1), UniWord(rs[i].1)], RunWords(rs[i + 1..]));
      out := out + [CodeWord(rs[i].0.0), CodeWord(rs[i].0.1), UniWord(rs[i].1)];
      i := i + 1;
    }
  }

  method WriteSections(t: Tables) returns (buffer: seq<string>)
    ensures buffer == Sections(t)
  {
    hide CharWords, ListWords, RunWords, Decimal;
    buffer := [Decimal(|t.chars|), "beginbfchar"];
    buffer := WriteChars(buffer, t.chars);
    buffer := buffer + ["endbfchar"];
    buffer := buffer + [Decimal(|t.lists| + |t.runs|), "beginbfrange"];
    buffer := WriteLists(buffer, t.lists);
    buffer := WriteRuns(buffer, t.runs);
    buffer := buffer + ["endbfrange"];
  }

  /** The second half of LoadUnicode: prints the three maps between the fixed header and footer. */
  method WriteCMap(t: Tables) returns (buffer: seq<string>)
    ensures buffer == CMapWords(t)
  {
    var sections := WriteSections(t);
    buffer := HEADER + sections + FOOTER;
  }

  // ---------- Reading single words ----------

  lemma DivideInSteps(n: nat)
    requires n <= 0xFFFF
    ensures ((n / 4096 * 16 + n / 256 % 16) * 16 + n / 16 % 16) * 16 + n % 16 == n
  {
    assert n / 256 == n / 4096 * 16 + n / 256 % 16;
    assert n / 16 == n / 256 * 16 + n / 16 % 16;
  }

  lemma FourHexDigits(a: char, b: char, c: char, d: char)
    ensures HexNumber([a, b, c, d]) == ((HexValue(a) * 16 + HexValue(b)) * 16 + HexValue(c)) * 16 + HexValue(d)
  {
    assert [a, b, c, d][..3] == [a, b, c] && [a, b, c][..2] == [a, b] && [a, b][..1] == [a] && [a][..0] == [];
    assert HexNumber([a]) == HexValue(a);
    assert HexNumber([a, b]) == HexNumber([a]) * 16 + HexValue(b);
    assert HexNumber([a, b, c]) == HexNumber([a, b]) * 16 + HexValue(c);
  }

  lemma Hex4RoundTrip(n: nat)
    requires n <= 0xFFFF
    ensures HexNumber(Hex4(n)) == n && forall i :: 0 <= i < 4 ==> IsHexDigit(Hex4(n)[i])
  {
    hide HexValue, HexChar, IsHexDigit, HexNumber;
    var (a, b, c, d) := (n / 4096, n / 256 % 16, n / 16 % 16, n % 16);
    HexCharValue(a); HexCharValue(b); HexCharValue(c); HexCharValue(d);
    assert Hex4(n) == [HexChar(a), HexChar(b), HexChar(c), HexChar(d)];
    FourHexDigits(HexChar(a), HexChar(b), HexChar(c), HexChar(d));
    DivideInSteps(n);
  }

  lemma CodeWordReads(c: nat)
    requires c <= 0xFFFF
    ensures StringToCode(CodeWord(c)) == Some(c)
  {
    assert CodeWord(c)[1..5] == Hex4(c);
    Hex4RoundTrip(c);
  }

  lemma {:induction false} HexAllReads(units: seq<nat>)
    requires forall i :: 0 <= i < |units| ==> units[i] <= 0xFFFF
    ensures Units(HexAll(units)) == units && |HexAll(units)| == 4 * |units|
  {
    if units != [] {
      HexAllReads(units[1..]);
      Hex4RoundTrip(units[0]);
      var s := HexAll(units);
      assert s[..4] == Hex4(units[0]) && s[4..] == HexAll(units[1..]);
    }
  }

  lemma UniWordReads(u: nat)
    ensures StringToWideString(UniWord(u)) == Utf16(Clean(u)) && UniWord(u) != "["
    ensures Clean(u) <= 0xFFFF ==> StringToCode(UniWord(u)) == Some(Clean(u))
  {
    var hex := HexAll(Utf16(Clean(u)));
    HexAllReads(Utf16(Clean(u)));
    assert UniWord(u)[1..|UniWord(u)| - 1] == hex;
    if Clean(u) <= 0xFFFF {
      assert hex == Hex4(Clean(u)) by { assert HexAll([]) == "" && Utf16(Clean(u))[1..] == []; }
      Hex4RoundTrip(Clean(u));
    }
  }
}
