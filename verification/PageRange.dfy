/** Page range strings such as "1-4, 7": what the parser accepts and the page indices it gives. */
module PageRange {
  import opened Numerals
  import Sequences

  const INT_MAX := 2147483647

  /** The elements between the places where ch stands. */
  function Split(s: string, ch: char): (r: seq<string>)
    ensures |r| > 0
    decreases |s|
  {
    if ch in s then [s[..Place(s, ch)]] + Split(s[Place(s, ch) + 1..], ch) else [s]
  }

  /** The first place where ch stands, or the length. */
  function Place(s: string, ch: char): (k: nat)
    ensures k <= |s| && (ch in s <==> k < |s|)
    ensures k < |s| ==> s[k] == ch
    ensures ch !in s[..k]
  {
    if s == [] || s[0] == ch then 0
    else
      var k := Place(s[1..], ch);
      assert s[..k + 1] == [s[0]] + s[1..][..k];
      k + 1
  }

  function Join(parts: seq<string>, ch: char): string
    requires |parts| > 0
  {
    if |parts| == 1 then parts[0] else parts[0] + [ch] + Join(parts[1..], ch)
  }

  lemma {:induction false} JoinSplit(s: string, ch: char)
    ensures Join(Split(s, ch), ch) == s && forall i :: 0 <= i < |Split(s, ch)| ==> ch !in Split(s, ch)[i]
    decreases |s|
  {
    if ch in s {
      var k := Place(s, ch);
      var rest := Split(s[k + 1..], ch);
      JoinSplit(s[k + 1..], ch);
      assert ([s[..k]] + rest)[1..] == rest;
      assert s == s[..k] + [ch] + s[k + 1..];
    }
  }

  lemma {:induction false} PlaceAfter(a: string, ch: char, b: string)
    requires ch !in a
    ensures Place(a + [ch] + b, ch) == |a|
  {
    if a != [] {
      assert (a + [ch] + b)[1..] == a[1..] + [ch] + b;
      PlaceAfter(a[1..], ch, b);
    }
  }

  lemma SplitAfter(a: string, ch: char, b: string)
    requires ch !in a
    ensures Split(a + [ch] + b, ch) == [a] + Split(b, ch)
  {
    PlaceAfter(a, ch, b);
    var s := a + [ch] + b;
    assert s[|a|] == ch;
    assert s[..|a|] == a && s[|a| + 1..] == b;
  }

  lemma {:induction false} SplitJoin(parts: seq<string>, ch: char)
    requires |parts| > 0 && forall i :: 0 <= i < |parts| ==> ch !in parts[i]
    ensures Split(Join(parts, ch), ch) == parts
    decreases |parts|
  {
    if |parts| == 1 {
      assert parts == [parts[0]];
    } else {
      SplitJoin(parts[1..], ch);
      SplitAfter(parts[0], ch, Join(parts[1..], ch));
      assert parts == [parts[0]] + parts[1..];
    }
  }

  function Without(s: string, ch: char): string {
    if s == [] then [] else (if s[0] == ch then [] else [s[0]]) + Without(s[1..], ch)
  }

  lemma {:induction false} WithoutChars(s: string, ch: char)
    ensures forall c :: c in Without(s, ch) <==> c in s && c != ch
  {
    if s != [] { WithoutChars(s[1..], ch); }
  }

  predicate Allowed(c: char) { c == ' ' || c == '-' || c == ',' || IsDigit(c) }

  predicate InAlphabet(s: string) { forall i :: 0 <= i < |s| ==> Allowed(s[i]) }

  /** One page, or all from the first to the last. */
  datatype Range = One(page: nat) | Span(first: nat, last: nat)

  /** The result list; a failure comes out as the empty list. atoi says nothing about numerals beyond INT_MAX. */
  datatype Outcome = Pages(indices: seq<int>) | Rejected | Undefined

  predicate Fits(r: Range, count: nat) {
    match r
    case One(p) => 1 <= p <= count
    case Span(a, b) => 1 <= a <= b <= count
  }

  function Indices(first: nat, last: nat): seq<int>
    decreases last + 1 - first
  {
    if first > last then [] else [first - 1] + Indices(first + 1, last)
  }

  function IndicesOf(r: Range): seq<int>
  {
    match r
    case One(p) => [p - 1]
    case Span(a, b) => Indices(a, b)
  }

  datatype Entry = Reads(r: Range) | Refused | Unknown

  function ReadEntry(entry: string, count: nat): (e: Entry)
    requires forall i :: 0 <= i < |entry| ==> IsDigit(entry[i]) || entry[i] == '-'
    ensures e.Reads? ==> Fits(e.r, count)
  {
    ArgsAreDigits(entry);
    var args := Split(entry, '-');
    if |args| == 1 then
      var page := DecimalValue(args[0]);
      if page > INT_MAX then Unknown else if page == 0 || page > count then Refused else Reads(One(page))
    else if |args| == 2 then
      var first := DecimalValue(args[0]);
      if first > INT_MAX then Unknown
      else if first == 0 then Refused
      else
        var last := DecimalValue(args[1]);
        if last > INT_MAX then Unknown
        else if last == 0 || first > last || last > count then Refused
        else Reads(Span(first, last))
    else Refused
  }

  lemma {:induction false} PartsOf(s: string, ch: char)
    ensures forall i :: 0 <= i < |Split(s, ch)| ==> forall c :: c in Split(s, ch)[i] ==> c in s && c != ch
    decreases |s|
  {
    if ch in s {
      var k := Place(s, ch);
      var rest := Split(s[k + 1..], ch);
      PartsOf(s[k + 1..], ch);
      forall i | 0 <= i < |Split(s, ch)| ensures forall c :: c in Split(s, ch)[i] ==> c in s && c != ch {
        if i > 0 { assert Split(s, ch)[i] == rest[i - 1]; }
      }
    }
  }

  lemma ArgsAreDigits(entry: string)
    requires forall i :: 0 <= i < |entry| ==> IsDigit(entry[i]) || entry[i] == '-'
    ensures forall i :: 0 <= i < |Split(entry, '-')| ==> AllDigits(Split(entry, '-')[i])
  {
    PartsOf(entry, '-');
    var args := Split(entry, '-');
    hide Split;
    forall i | 0 <= i < |args| ensures AllDigits(args[i]) {
      forall j | 0 <= j < |args[i]| ensures IsDigit(args[i][j]) {
        assert args[i][j] in args[i];
        var m :| 0 <= m < |entry| && entry[m] == args[i][j];
      }
    }
  }

  predicate IsEntry(s: string) { forall i :: 0 <= i < |s| ==> IsDigit(s[i]) || s[i] == '-' }

  predicate AllEntries(entries: seq<string>) { forall i :: 0 <= i < |entries| ==> IsEntry(entries[i]) }

  /** The entries in turn, up to the first that is refused or unknown. */
  function ReadAll(entries: seq<string>, count: nat): Outcome
    requires AllEntries(entries)
  {
    if entries == [] then Pages([])
    else
      match ReadEntry(entries[0], count)
      case Unknown => Undefined
      case Refused => Rejected
      case Reads(r) =>
        match ReadAll(entries[1..], count)
        case Pages(rest) => Pages(IndicesOf(r) + rest)
        case other => other
  }

  lemma EntriesOf(s: string)
    requires InAlphabet(s)
    ensures AllEntries(Split(Without(s, ' '), ','))
  {
    var stripped := Without(s, ' ');
    WithoutChars(s, ' ');
    PartsOf(stripped, ',');
    var entries := Split(stripped, ',');
    forall i, j | 0 <= i < |entries| && 0 <= j < |entries[i]| ensures IsDigit(entries[i][j]) || entries[i][j] == '-' {
      assert entries[i][j] in entries[i];
      assert Allowed(entries[i][j]);
    }
  }

  /** ParsePageRangeString, with its failures told apart. */
  function Parsed(s: string, count: nat): Outcome {
    if InAlphabet(s) then
      EntriesOf(s);
      ReadAll(Split(Without(s, ' '), ','), count)
    else Rejected
  }

  lemma SplitStep(s: string, ch: char)
    ensures Split(s, ch) == if ch in s then [s[..Place(s, ch)]] + Split(s[Place(s, ch) + 1..], ch) else [s]
  {
  }

  lemma WithoutNothing(ch: char)
    ensures Without([], ch) == []
  {
  }

  lemma WithoutStep(s: string, ch: char, i: nat)
    requires i < |s|
    ensures Without(s[i..], ch) == (if s[i] == ch then [] else [s[i]]) + Without(s[i + 1..], ch)
  {
    assert s[i..][1..] == s[i + 1..];
  }

  method SplitAt(s: string, ch: char) returns (r: seq<string>)
    ensures r == Split(s, ch)
  {
    hide Split;
    r := [];
    var remaining := s;
    assert [] + Split(s, ch) == Split(s, ch);
    while ch in remaining
      invariant r + Split(remaining, ch) == Split(s, ch)
      decreases |remaining|
    {
      var k := Place(remaining, ch);
      SplitStep(remaining, ch);
      Sequences.Regroup(r, [remaining[..k]], Split(remaining[k + 1..], ch));
      r := r + [remaining[..k]];
      remaining := remaining[k + 1..];
    }
    SplitStep(remaining, ch);
    r := r + [remaining];
  }

  method RemoveChar(s: string, ch: char) returns (r: string)
    ensures r == Without(s, ch)
  {
    hide Without;
    r := [];
    assert s[0..] == s && [] + Without(s, ch) == Without(s, ch);
    for i := 0 to |s|
      invariant r + Without(s[i..], ch) == Without(s, ch)
    {
      WithoutStep(s, ch, i);
      if s[i] != ch {
        Sequences.Regroup(r, [s[i]], Without(s[i + 1..], ch));
        r := r + [s[i]];
      }
    }
    WithoutNothing(ch);
    assert s[|s|..] == [] && r + [] == r;
  }

  method ParseEntry(entry: string, count: nat, before: seq<int>) returns (results: seq<int>, e: Entry)
    requires IsEntry(entry)
    ensures e == ReadEntry(entry, count)
    ensures e.Reads? ==> results == before + IndicesOf(e.r)
  {
    hide Split, DecimalValue;
    results := before;
    ArgsAreDigits(entry);
    var args := SplitAt(entry, '-');
    if |args| == 1 {
      var page := DecimalValue(args[0]);
      if page > INT_MAX { return results, Unknown; }
      if page == 0 || page > count { return results, Refused; }
      return results + [page - 1], Reads(One(page));
    }
    if |args| != 2 { return results, Refused; }
    var first := DecimalValue(args[0]);
    if first > INT_MAX { return results, Unknown; }
    if first == 0 { return results, Refused; }
    var last := DecimalValue(args[1]);
    if last > INT_MAX { return results, Unknown; }
    if last == 0 || first > last || last > count { return results, Refused; }
    var page := first;
    while page <= last
      invariant first <= page <= last + 1
      invariant results + Indices(page, last) == before + Indices(first, last)
    {
      results := results + [page - 1];
      page := page + 1;
    }
    e := Reads(Span(first, last));
  }

  /** The indices; the last result is false when atoi was asked for a number it does not define. */
  method ParsePageRangeString(s: string, count: nat) returns (results: seq<int>, defined: bool)
    ensures defined <==> !Parsed(s, count).Undefined?
    ensures defined ==> results == if Parsed(s, count).Pages? then Parsed(s, count).indices else []
  {
    hide Split, ReadEntry, Allowed, IndicesOf;
    for i := 0 to |s|
      invariant InAlphabet(s[..i])
    {
      if !Allowed(s[i]) { return [], true; }
    }
    assert s[..|s|] == s;
    var stripped := RemoveChar(s, ' ');
    EntriesOf(s);
    results := [];
    var entries := SplitAt(stripped, ',');
    for i := 0 to |entries|
      invariant Parsed(s, count) == Added(results, ReadAll(entries[i..], count))
    {
      var rest := entries[i..];
      assert rest[0] == entries[i] && rest[1..] == entries[i + 1..];
      ghost var before := results;
      var e: Entry;
      results, e := ParseEntry(entries[i], count, results);
      if e.Unknown? { return [], false; }
      if e.Refused? { return [], true; }
      AddedTwice(before, IndicesOf(e.r), ReadAll(entries[i + 1..], count));
    }
    defined := true;
  }

  function Added(first: seq<int>, o: Outcome): Outcome {
    if o.Pages? then Pages(first + o.indices) else o
  }

  lemma AddedTwice(a: seq<int>, b: seq<int>, o: Outcome)
    ensures Added(a + b, o) == Added(a, Added(b, o))
  {
    if o.Pages? { assert a + b + o.indices == a + (b + o.indices); }
  }

  predicate Numeral(s: string, n: nat) { AllDigits(s) && DecimalValue(s) == n && n <= INT_MAX }

  /** The entry is the range in writing: a numeral, or two with a hyphen, zeros in front allowed. */
  ghost predicate Written(entry: string, r: Range) {
    match r
    case One(p) => Numeral(entry, p)
    case Span(a, b) => exists x, y :: entry == x + "-" + y && Numeral(x, a) && Numeral(y, b)
  }

  ghost predicate AllWritten(entries: seq<string>, ranges: seq<Range>, count: nat) {
    |entries| == |ranges|
    && forall i :: 0 <= i < |entries| ==> Written(entries[i], ranges[i]) && Fits(ranges[i], count)
  }

  function AllIndices(ranges: seq<Range>): seq<int> {
    if ranges == [] then [] else IndicesOf(ranges[0]) + AllIndices(ranges[1..])
  }

  lemma NoHyphen(s: string)
    requires AllDigits(s)
    ensures '-' !in s && ',' !in s && Split(s, '-') == [s]
  {
  }

  lemma WrittenReads(entry: string, r: Range, count: nat)
    requires Written(entry, r) && Fits(r, count)
    ensures IsEntry(entry) && ',' !in entry && ReadEntry(entry, count) == Reads(r)
  {
    match r
    case One(p) => NoHyphen(entry);
    case Span(a, b) =>
      hide ReadEntry, Numeral;
      var x, y :| entry == x + "-" + y && Numeral(x, a) && Numeral(y, b);
      SpanReads(x, y, a, b, count);
  }

  lemma SpanReads(x: string, y: string, a: nat, b: nat, count: nat)
    requires Numeral(x, a) && Numeral(y, b) && Fits(Span(a, b), count)
    ensures var entry := x + "-" + y;
      IsEntry(entry) && ',' !in entry && ReadEntry(entry, count) == Reads(Span(a, b))
  {
    NoHyphen(x);
    NoHyphen(y);
    SplitAfter(x, '-', y);
    hide Split, Place, DecimalValue;
  }

  lemma ReadsWritten(entry: string, count: nat)
    requires IsEntry(entry) && ReadEntry(entry, count).Reads?
    ensures Written(entry, ReadEntry(entry, count).r)
  {
    ArgsAreDigits(entry);
    JoinSplit(entry, '-');
    hide Split;
    var args := Split(entry, '-');
    if |args| == 2 {
      assert entry == Join(args, '-') == args[0] + "-" + args[1];
      assert Numeral(args[0], DecimalValue(args[0])) && Numeral(args[1], DecimalValue(args[1]));
    } else {
      assert entry == args[0];
    }
  }

  lemma {:induction false} WrittenReadAll(entries: seq<string>, ranges: seq<Range>, count: nat)
    requires AllWritten(entries, ranges, count)
    ensures AllEntries(entries) && forall i :: 0 <= i < |entries| ==> ',' !in entries[i]
    ensures ReadAll(entries, count) == Pages(AllIndices(ranges))
    decreases |entries|
  {
    hide Written, ReadEntry, IndicesOf;
    if entries != [] {
      WrittenReads(entries[0], ranges[0], count);
      assert AllWritten(entries[1..], ranges[1..], count);
      WrittenReadAll(entries[1..], ranges[1..], count);
    }
  }

  lemma {:induction false} ReadAllWritten(entries: seq<string>, count: nat) returns (ranges: seq<Range>)
    requires AllEntries(entries) && ReadAll(entries, count).Pages?
    ensures AllWritten(entries, ranges, count) && ReadAll(entries, count) == Pages(AllIndices(ranges))
    decreases |entries|
  {
    hide Written, IndicesOf;
    ranges := [];
    if entries != [] {
      ReadsWritten(entries[0], count);
      var r := ReadEntry(entries[0], count).r;
      hide ReadEntry;
      var rest := ReadAllWritten(entries[1..], count);
      ranges := [r] + rest;
      assert ranges[1..] == rest;
      WrittenReadAll([entries[0]] + entries[1..], ranges, count);
      assert entries == [entries[0]] + entries[1..];
    }
  }

  /** The text is a list of ranges in writing, with spaces anywhere. */
  ghost predicate Spells(s: string, ranges: seq<Range>, count: nat) {
    exists entries :: entries != [] && Without(s, ' ') == Join(entries, ',') && AllWritten(entries, ranges, count)
  }

  /** The parser gives indices for exactly the strings that spell some ranges within the count, and they are the
      indices of those ranges, in order. */
  lemma ParsesIff(s: string, count: nat, indices: seq<int>)
    ensures Parsed(s, count) == Pages(indices)
       <==> exists ranges :: Spells(s, ranges, count) && indices == AllIndices(ranges)
  {
    if Parsed(s, count) == Pages(indices) {
      EntriesOf(s);
      var entries := Split(Without(s, ' '), ',');
      var ranges := ReadAllWritten(entries, count);
      JoinSplit(Without(s, ' '), ',');
      assert Spells(s, ranges, count);
    }
    forall ranges | Spells(s, ranges, count) && indices == AllIndices(ranges)
      ensures Parsed(s, count) == Pages(indices)
    {
      SpelledParses(s, ranges, count);
    }
  }

  lemma SpelledParses(s: string, ranges: seq<Range>, count: nat)
    requires Spells(s, ranges, count)
    ensures Parsed(s, count) == Pages(AllIndices(ranges))
  {
    var entries :| entries != [] && Without(s, ' ') == Join(entries, ',') && AllWritten(entries, ranges, count);
    WrittenReadAll(entries, ranges, count);
    SplitJoin(entries, ',');
    JoinAllowed(entries);
    WithoutChars(s, ' ');
    hide Split, Join, ReadAll;
    forall i | 0 <= i < |s| ensures Allowed(s[i]) {
      if s[i] != ' ' {
        assert s[i] in Without(s, ' ');
        var m :| 0 <= m < |Without(s, ' ')| && Without(s, ' ')[m] == s[i];
      }
    }
  }

  lemma {:induction false} JoinAllowed(entries: seq<string>)
    requires entries != [] && AllEntries(entries)
    ensures InAlphabet(Join(entries, ','))
    decreases |entries|
  {
    if |entries| > 1 { JoinAllowed(entries[1..]); }
  }

  function Print(r: Range): string {
    match r
    case One(p) => Decimal(p)
    case Span(a, b) => Decimal(a) + "-" + Decimal(b)
  }

  function PrintAll(ranges: seq<Range>): string
    requires ranges != []
  {
    if |ranges| == 1 then Print(ranges[0]) else Print(ranges[0]) + "," + PrintAll(ranges[1..])
  }

  lemma PrintWritten(r: Range, count: nat)
    requires Fits(r, count) && count <= INT_MAX
    ensures Written(Print(r), r)
  {
    match r
    case One(p) => DecimalRoundTrip(p);
    case Span(a, b) =>
      DecimalRoundTrip(a);
      DecimalRoundTrip(b);
      assert Print(r) == Decimal(a) + "-" + Decimal(b) && Numeral(Decimal(a), a) && Numeral(Decimal(b), b);
  }

  lemma {:induction false} PrintAllWritten(ranges: seq<Range>, count: nat) returns (entries: seq<string>)
    requires ranges != [] && count <= INT_MAX && forall i :: 0 <= i < |ranges| ==> Fits(ranges[i], count)
    ensures entries != [] && Join(entries, ',') == PrintAll(ranges) && AllWritten(entries, ranges, count)
    decreases |ranges|
  {
    hide Written, Print;
    PrintWritten(ranges[0], count);
    entries := [Print(ranges[0])];
    if |ranges| > 1 {
      var rest := PrintAllWritten(ranges[1..], count);
      entries := entries + rest;
      assert entries[1..] == rest;
    }
  }

  /** Ranges printed with commas, and then with spaces put in anywhere, parse to their page indices. */
  lemma ParsesWhatIsPrinted(ranges: seq<Range>, count: nat, s: string)
    requires ranges != [] && count <= INT_MAX && forall i :: 0 <= i < |ranges| ==> Fits(ranges[i], count)
    requires Without(s, ' ') == PrintAll(ranges)
    ensures Parsed(s, count) == Pages(AllIndices(ranges))
  {
    var entries := PrintAllWritten(ranges, count);
    SpelledParses(s, ranges, count);
  }

  /** Every index is of a page there is. */
  lemma IndicesInRange(s: string, count: nat)
    requires Parsed(s, count).Pages?
    ensures forall k :: k in Parsed(s, count).indices ==> 0 <= k < count
    ensures Parsed(s, count).indices != []
  {
    EntriesOf(s);
    var entries := Split(Without(s, ' '), ',');
    ReadAllInRange(entries, count);
  }

  lemma {:induction false} ReadAllInRange(entries: seq<string>, count: nat)
    requires AllEntries(entries) && ReadAll(entries, count).Pages?
    ensures forall k :: k in ReadAll(entries, count).indices ==> 0 <= k < count
    ensures entries != [] ==> ReadAll(entries, count).indices != []
    decreases |entries|
  {
    if entries != [] {
      var r := ReadEntry(entries[0], count).r;
      hide ReadEntry;
      if r.Span? { IndicesAre(r.first, r.last); }
      ReadAllInRange(entries[1..], count);
    }
  }

  lemma {:induction false} IndicesAre(first: nat, last: nat)
    requires first <= last + 1
    ensures |Indices(first, last)| == last + 1 - first
    ensures forall k :: 0 <= k < last + 1 - first ==> Indices(first, last)[k] == first - 1 + k
    decreases last + 1 - first
  {
    if first <= last { IndicesAre(first + 1, last); }
  }

  // ---------- What the indices are ----------

  lemma {:induction false} WithoutAbsent(s: string, ch: char)
    requires ch !in s
    ensures Without(s, ch) == s
  {
    if s != [] { WithoutAbsent(s[1..], ch); }
  }

  lemma {:induction false} WithoutConcat(a: string, b: string, ch: char)
    ensures Without(a + b, ch) == Without(a, ch) + Without(b, ch)
  {
    if a == [] {
      assert a + b == b;
    } else {
      assert (a + b)[1..] == a[1..] + b;
      WithoutConcat(a[1..], b, ch);
    }
  }

  lemma ParsesEntry(s: string, count: nat)
    requires IsEntry(s)
    ensures InAlphabet(s)
    ensures Parsed(s, count) ==
      match ReadEntry(s, count) case Reads(r) => Pages(IndicesOf(r)) case Refused => Rejected case Unknown => Undefined
  {
    WithoutAbsent(s, ' ');
    hide Without, ReadEntry, IndicesOf;
    SplitStep(s, ',');
    assert AllEntries([s]) && [s][1..] == [];
    var e := ReadEntry(s, count);
    assert ReadAll([], count) == Pages([]);
    if e.Reads? { assert IndicesOf(e.r) + [] == IndicesOf(e.r); }
  }

  /** A numeral by itself is the index one less, when there is such a page. */
  lemma ParsesOnePage(p: nat, count: nat)
    ensures Parsed(Decimal(p), count) == if p > INT_MAX then Undefined
                                         else if 1 <= p <= count then Pages([p - 1]) else Rejected
  {
    DecimalRoundTrip(p);
    NoHyphen(Decimal(p));
    ParsesEntry(Decimal(p), count);
    hide Parsed, Split, DecimalValue;
  }

  /** Two numerals with a hyphen are the indices from the one to the other, all of them and in order. */
  lemma ParsesSpan(a: nat, b: nat, count: nat)
    requires 1 <= a <= b <= count && b <= INT_MAX
    ensures var r := Parsed(Decimal(a) + "-" + Decimal(b), count);
      && r.Pages? && |r.indices| == b - a + 1
      && forall k :: 0 <= k <= b - a ==> r.indices[k] == a - 1 + k
  {
    DecimalRoundTrip(a);
    DecimalRoundTrip(b);
    SpanReads(Decimal(a), Decimal(b), a, b, count);
    IndicesAre(a, b);
    ParsesEntry(Decimal(a) + "-" + Decimal(b), count);
    hide Parsed, ReadEntry;
  }

  /** A space changes nothing, wherever it stands. */
  lemma SpacesDoNotMatter(a: string, b: string, count: nat)
    ensures Parsed(a + " " + b, count) == Parsed(a + b, count)
  {
    WithoutConcat(a + " ", b, ' ');
    WithoutConcat(a, " ", ' ');
    WithoutConcat(a, b, ' ');
    assert Without(" ", ' ') == "" by { assert " "[1..] == ""; }
    assert Without(a, ' ') + "" == Without(a, ' ');
    hide Without;
    var (with, plain) := (a + " " + b, a + b);
    forall i | 0 <= i < |plain| ensures plain[i] == with[if i < |a| then i else i + 1] {}
    forall i | 0 <= i < |with| && i != |a| ensures with[i] == plain[if i < |a| then i else i - 1] {}
    assert with[|a|] == ' ';
  }

  lemma {:induction false} SplitConcat(a: string, ch: char, b: string)
    ensures Split(a + [ch] + b, ch) == Split(a, ch) + Split(b, ch)
    decreases |a|
  {
    hide Split;
    SplitStep(a, ch);
    if ch in a {
      var k := Place(a, ch);
      var (front, back) := (a[..k], a[k + 1..]);
      assert a == front + [ch] + back;
      assert a + [ch] + b == front + [ch] + (back + [ch] + b);
      SplitAfter(front, ch, back + [ch] + b);
      SplitConcat(back, ch, b);
      Sequences.Regroup([front], Split(back, ch), Split(b, ch));
    } else {
      SplitAfter(a, ch, b);
    }
  }

  lemma {:induction false} ReadAllConcat(a: seq<string>, b: seq<string>, count: nat)
    requires AllEntries(a) && AllEntries(b)
    ensures AllEntries(a + b)
    ensures ReadAll(a + b, count) ==
      match ReadAll(a, count) case Pages(first) => Added(first, ReadAll(b, count)) case other => other
    decreases |a|
  {
    hide ReadEntry, IndicesOf;
    if a == [] {
      assert a + b == b;
      if ReadAll(b, count).Pages? { assert [] + ReadAll(b, count).indices == ReadAll(b, count).indices; }
    } else {
      assert (a + b)[0] == a[0] && (a + b)[1..] == a[1..] + b;
      ReadAllConcat(a[1..], b, count);
      if ReadEntry(a[0], count).Reads? && ReadAll(a[1..], count).Pages? {
        AddedTwice(IndicesOf(ReadEntry(a[0], count).r), ReadAll(a[1..], count).indices, ReadAll(b, count));
      }
    }
  }

  /** Lists joined with a comma parse when both do, to the indices of the one and then of the other. */
  lemma ParsesJoined(a: string, b: string, count: nat)
    ensures Parsed(a + "," + b, count).Pages? <==> Parsed(a, count).Pages? && Parsed(b, count).Pages?
    ensures Parsed(a, count).Pages? && Parsed(b, count).Pages? ==>
      Parsed(a + "," + b, count) == Pages(Parsed(a, count).indices + Parsed(b, count).indices)
  {
    var s := a + "," + b;
    assert InAlphabet(s) <==> InAlphabet(a) && InAlphabet(b) by {
      assert forall i :: 0 <= i < |a| ==> s[i] == a[i];
      assert forall i :: 0 <= i < |b| ==> s[|a| + 1 + i] == b[i];
      assert forall i :: |a| + 1 <= i < |s| ==> s[i] == b[i - |a| - 1];
    }
    if InAlphabet(s) {
      EntriesOf(a);
      EntriesOf(b);
      WithoutConcat(a + ",", b, ' ');
      WithoutConcat(a, ",", ' ');
      assert Without(",", ' ') == "," by { assert ","[1..] == ""; }
      hide Without, Split, ReadAll;
      SplitConcat(Without(a, ' '), ',', Without(b, ' '));
      ReadAllConcat(Split(Without(a, ' '), ','), Split(Without(b, ' '), ','), count);
    }
  }

  /** The page is among those of the range. */
  predicate Holds(r: Range, page: int) {
    match r case One(p) => page == p case Span(a, b) => a <= page <= b
  }

  /** An index is given exactly when its page lies in a range that the text spells. */
  lemma IndexGivenIff(s: string, ranges: seq<Range>, count: nat, i: int)
    requires Spells(s, ranges, count)
    ensures Parsed(s, count).Pages?
    ensures i in Parsed(s, count).indices <==> exists k :: 0 <= k < |ranges| && Holds(ranges[k], i + 1)
  {
    SpelledParses(s, ranges, count);
    AllIndicesHold(ranges, i);
  }

  lemma {:induction false} AllIndicesHold(ranges: seq<Range>, i: int)
    ensures i in AllIndices(ranges) <==> exists k :: 0 <= k < |ranges| && Holds(ranges[k], i + 1)
  {
    if ranges != [] {
      AllIndicesHold(ranges[1..], i);
      IndicesHold(ranges[0], i);
      hide IndicesOf, Holds;
      if k :| 0 <= k < |ranges[1..]| && Holds(ranges[1..][k], i + 1) { assert Holds(ranges[k + 1], i + 1); }
      if k :| 0 <= k < |ranges| && Holds(ranges[k], i + 1) { assert k > 0 ==> Holds(ranges[1..][k - 1], i + 1); }
    }
  }

  lemma IndicesHold(r: Range, i: int)
    ensures i in IndicesOf(r) <==> Holds(r, i + 1)
  {
    if r.Span? && r.first <= r.last + 1 {
      IndicesAre(r.first, r.last);
      if r.first <= i + 1 <= r.last { assert Indices(r.first, r.last)[i + 1 - r.first] == i; }
    }
  }

  /** The result is undefined only for a numeral beyond INT_MAX. */
  lemma UndefinedHasBigNumeral(s: string, count: nat) returns (x: string, n: string, y: string)
    requires Parsed(s, count).Undefined?
    ensures Without(s, ' ') == x + n + y && AllDigits(n) && DecimalValue(n) > INT_MAX
  {
    hide *;
    var entries := Split(Without(s, ' '), ',');
    UndefinedReads(s, count);
    var k := UnknownEntry(entries, count);
    x, y := SplitPart(Without(s, ' '), ',', k);
    var v, w;
    v, n, w := UnknownHasBigNumeral(entries[k], count);
    Around(x, v, n, w, y);
    x, y := x + v, w + y;
  }

  lemma Around(x: string, v: string, n: string, w: string, y: string)
    ensures x + (v + n + w) + y == (x + v) + n + (w + y)
  {
  }

  lemma UndefinedReads(s: string, count: nat)
    requires Parsed(s, count).Undefined?
    ensures AllEntries(Split(Without(s, ' '), ',')) && ReadAll(Split(Without(s, ' '), ','), count).Undefined?
    ensures forall k :: 0 <= k < |Split(Without(s, ' '), ',')| ==> IsEntry(Split(Without(s, ' '), ',')[k])
  {
    EntriesOf(s);
    hide Split, ReadAll, Without;
  }

  lemma UnknownHasBigNumeral(e: string, count: nat) returns (x: string, n: string, y: string)
    requires IsEntry(e) && ReadEntry(e, count).Unknown?
    ensures e == x + n + y && AllDigits(n) && DecimalValue(n) > INT_MAX
  {
    ArgsAreDigits(e);
    hide Split, DecimalValue;
    var args := Split(e, '-');
    var j := if DecimalValue(args[0]) > INT_MAX then 0 else 1;
    n := args[j];
    x, y := SplitPart(e, '-', j);
  }

  lemma {:induction false} UnknownEntry(entries: seq<string>, count: nat) returns (k: nat)
    requires AllEntries(entries) && ReadAll(entries, count).Undefined?
    ensures k < |entries| && ReadEntry(entries[k], count).Unknown?
    decreases |entries|
  {
    hide ReadEntry;
    k := 0;
    if !ReadEntry(entries[0], count).Unknown? {
      k := UnknownEntry(entries[1..], count);
      k := k + 1;
    }
  }

  lemma {:induction false} SplitPart(s: string, ch: char, k: nat) returns (x: string, y: string)
    requires k < |Split(s, ch)|
    ensures s == x + Split(s, ch)[k] + y
    decreases |s|
  {
    hide Split;
    SplitStep(s, ch);
    x, y := "", "";
    if ch in s {
      var p := Place(s, ch);
      if k == 0 {
        y := s[p..];
      } else {
        x, y := SplitPart(s[p + 1..], ch, k - 1);
        x := s[..p + 1] + x;
      }
    }
  }
}
