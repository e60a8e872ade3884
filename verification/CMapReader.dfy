/** The ToUnicode reader of the library (core/fpdfapi/font/cpdf_tounicodemap.cpp), over the words its
    tokenizer yields. The tokenizer answers the empty word at the end of the stream. */
module CMapReader {
  import opened Basics
  import opened Numerals

  function Word(ws: seq<string>): string { if ws == [] then "" else ws[0] }

  function Rest(ws: seq<string>): seq<string> { if ws == [] then [] else ws[1..] }

  /** m_Multimap in insertion order, and m_MultiCharBuf. */
  datatype Table = Table(entries: seq<(nat, nat)>, buf: seq<nat>)

  // ---------- Words ----------

  predicate Bracketed(w: string) {
    |w| > 2 && w[0] == '<' && w[|w| - 1] == '>'
  }

  function HexNumber(s: string): nat {
    if s == [] then 0 else HexNumber(s[..|s| - 1]) * 16 + HexValue(s[|s| - 1])
  }

  function StringToCode(w: string): Option<nat> {
    if !Bracketed(w) then None
    else
      var digits := w[1..|w| - 1];
      if exists i :: 0 <= i < |digits| && !IsHexDigit(digits[i]) then None
      else if HexNumber(digits) > 0xFFFF_FFFF then None
      else Some(HexNumber(digits))
  }

  /** Four hex digits make one unit; an incomplete last group and everything from the first
      other character on are dropped. */
  function Units(digits: string): seq<nat> {
    if |digits| < 4 || (exists i :: 0 <= i < 4 && !IsHexDigit(digits[i])) then []
    else [HexNumber(digits[..4])] + Units(digits[4..])
  }

  function StringToWideString(w: string): seq<nat> {
    if Bracketed(w) then Units(w[1..|w| - 1]) else []
  }

  // ---------- Storing and looking up ----------

  function GetUnicode(t: Table): nat {
    var uni := |t.buf| * 0x10000 + 0xFFFF;
    if uni <= 0xFFFF_FFFF then uni else 0
  }

  function StoreDirect(t: Table, code: nat, value: nat): Table {
    t.(entries := t.entries + [(code, value)])
  }

  function StoreWide(t: Table, code: nat, units: seq<nat>): Table {
    Table(t.entries + [(code, GetUnicode(t))], t.buf + [|units|] + units)
  }

  function SetCode(t: Table, code: nat, units: seq<nat>): Table {
    if |units| == 0 then t
    else if |units| == 1 then StoreDirect(t, code, units[0])
    else StoreWide(t, code, units)
  }

  function Find(entries: seq<(nat, nat)>, code: nat): Option<nat> {
    if entries == [] then None
    else if entries[0].0 == code then Some(entries[0].1)
    else Find(entries[1..], code)
  }

  function Slice(buf: seq<nat>, from: nat, count: nat): seq<nat> {
    if from > |buf| then [] else if from + count > |buf| then buf[from..] else buf[from..from + count]
  }

  function Lookup(t: Table, code: nat): seq<nat> {
    match Find(t.entries, code)
    case None => []
    case Some(value) =>
      if value % 0x10000 != 0xFFFF then [value % 0x10000]
      else
        var index := value / 0x10000;
        if index >= |t.buf| then [] else Slice(t.buf, index + 1, t.buf[index])
  }

  // ---------- Sections ----------

  /** One more than the string read as a number of 32-bit characters; the carry loop of StringDataAdd. */
  function StringDataAdd(s: seq<nat>): seq<nat> {
    if s == [] then [1]
    else
      var last := (s[|s| - 1] + 1) % 0x1_0000_0000;
      if last < s[|s| - 1] then StringDataAdd(s[..|s| - 1]) + [0] else s[..|s| - 1] + [last]
  }

  function HandleBeginBFChar(ws: seq<string>, t: Table): (r: (seq<string>, Table))
    ensures |r.0| <= |ws|
    decreases |ws|
  {
    if Word(ws) == "" || Word(ws) == "endbfchar" then (Rest(ws), t)
    else
      match StringToCode(Word(ws))
      case None => (Rest(ws), t)
      case Some(code) =>
        var ws1 := Rest(ws);
        HandleBeginBFChar(Rest(ws1), SetCode(t, code, StringToWideString(Word(ws1))))
  }

  function ReadList(ws: seq<string>, t: Table, code: nat, high: nat): (r: (seq<string>, Table))
    ensures |r.0| <= |ws|
    decreases high + 1 - code
  {
    if code > high then (ws, t)
    else ReadList(Rest(ws), SetCode(t, code, StringToWideString(Word(ws))), code + 1, high)
  }

  function ReadRun(t: Table, code: nat, high: nat, value: nat): Table
    decreases high + 1 - code
  {
    if code > high then t else ReadRun(StoreDirect(t, code, value), code + 1, high, (value + 1) % 0x1_0000_0000)
  }

  function ReadWideRun(t: Table, code: nat, high: nat, units: seq<nat>): Table
    decreases high + 1 - code
  {
    if code > high then t else ReadWideRun(StoreWide(t, code, units), code + 1, high, StringDataAdd(units))
  }

  function HandleBeginBFRange(ws: seq<string>, t: Table): (r: (seq<string>, Table))
    ensures |r.0| <= |ws|
    decreases |ws|
  {
    if Word(ws) == "" || Word(ws) == "endbfrange" then (Rest(ws), t)
    else
      var ws1 := Rest(ws);
      var ws2 := Rest(ws1);
      match (StringToCode(Word(ws)), StringToCode(Word(ws1)))
      case (None, _) => (ws1, t)
      case (Some(_), None) => (ws2, t)
      case (Some(low), Some(h)) =>
        var high := low - low % 256 + h % 256;
        if Word(ws2) == "[" then
          var (rest, t') := ReadList(Rest(ws2), t, low, high);
          HandleBeginBFRange(Rest(rest), t')
        else
          var units := StringToWideString(Word(ws2));
          if |units| == 1 then
            match StringToCode(Word(ws2))
            case None => (Rest(ws2), t)
            case Some(value) => HandleBeginBFRange(Rest(ws2), ReadRun(t, low, high, value))
          else HandleBeginBFRange(Rest(ws2), ReadWideRun(t, low, high, units))
  }

  function Load(ws: seq<string>, t: Table): Table
    decreases |ws|
  {
    if Word(ws) == "" then t
    else if Word(ws) == "beginbfchar" then
      var (rest, t') := HandleBeginBFChar(Rest(ws), t);
      Load(rest, t')
    else if Word(ws) == "beginbfrange" then
      var (rest, t') := HandleBeginBFRange(Rest(ws), t);
      Load(rest, t')
    else Load(Rest(ws), t)
  }
}
