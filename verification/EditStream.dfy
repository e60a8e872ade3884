/** Compiling the words of an edit control into text operators, and the meaning of these operators. */
module EditStream {
  import opened Basics
  import opened Sequences

  datatype Point = Point(x: real, y: real)

  /** A word of the edit; text is the byte string its font encodes it with. */
  datatype Word = Word(pos: Point, font: int, text: string)

  /** One stop of the word iterator: the line it is on, its word if it has one, and the line's position. */
  datatype Place = Place(section: int, line: int, word: Option<Word>, linePos: Point)

  datatype Op = Td(dx: real, dy: real) | Tf(alias: string, size: real) | Tj(text: string)

  datatype Font = Font(alias: string, size: real)

  // ---------- The meaning of text operators (section 9.4.2 of ISO 32000-1) ----------

  /** A byte painted: the origin of its text line and the font it is painted in. */
  datatype Glyph = Glyph(origin: Point, font: Option<Font>, byte: char)

  datatype TextState = TextState(origin: Point, font: Option<Font>, shown: seq<Glyph>)

  function Paint(origin: Point, font: Option<Font>, text: string): (g: seq<Glyph>)
    ensures |g| == |text|
  {
    seq(|text|, i requires 0 <= i < |text| => Glyph(origin, font, text[i]))
  }

  function Step(s: TextState, op: Op): TextState {
    match op
    case Td(dx, dy) => s.(origin := Point(s.origin.x + dx, s.origin.y + dy))
    case Tf(alias, size) => s.(font := Some(Font(alias, size)))
    case Tj(text) => s.(shown := s.shown + Paint(s.origin, s.font, text))
  }

  /** The state a text object ends in; it begins at the origin, with no font. */
  function Exec(ops: seq<Op>): TextState {
    if ops == [] then TextState(Point(0.0, 0.0), None, []) else Step(Exec(ops[..|ops| - 1]), ops[|ops| - 1])
  }

  lemma ExecOne(ops: seq<Op>, op: Op)
    ensures Exec(ops + [op]) == Step(Exec(ops), op)
  {
    assert (ops + [op])[..|ops + [op]| - 1] == ops;
  }

  lemma PaintConcat(origin: Point, font: Option<Font>, a: string, b: string)
    ensures Paint(origin, font, a + b) == Paint(origin, font, a) + Paint(origin, font, b)
  {
  }

  // ---------- What should be painted ----------

  function Shift(p: Point, offset: Point): Point {
    Point(p.x + offset.x, p.y + offset.y)
  }

  /** The one font size of the edit, and its fonts' names by index; an index without a name cannot be set. */
  datatype Fonts = Fonts(alias: int -> string, size: real) {
    predicate Settable(font: int) { |alias(font)| > 0 && size > 0.0 }

    function Of(font: int): Font { Font(alias(font), size) }
  }

  /** The font index last asked for, and the font in force, after the first n places: a font is set when the
      index changes, from the first word of the new index, unless its alias or size is void. */
  function FontAfter(fonts: Fonts, places: seq<Place>, n: nat): (int, Option<Font>)
    requires n <= |places|
  {
    if n == 0 then (-1, None)
    else
      var (index, font) := FontAfter(fonts, places, n - 1);
      match places[n - 1].word
      case None => (index, font)
      case Some(w) =>
        if w.font == index then (index, font)
        else (w.font, if fonts.Settable(w.font) then Some(fonts.Of(w.font)) else font)
  }

  /** CPVT_WordPlace::LineCmp against the place before; the place before the first one is (-1, -1). */
  predicate NewLine(places: seq<Place>, i: nat)
    requires i < |places|
  {
    if i == 0 then places[0].section != -1 || places[0].line != -1
    else places[i].section != places[i - 1].section || places[i].line != places[i - 1].line
  }

  function Anchor(p: Place): Point {
    if p.word.Some? then p.word.value.pos else p.linePos
  }

  /** The origin of the line that place i is on: where the first place of the line is. */
  function LineOrigin(places: seq<Place>, offset: Point, i: nat): Point
    requires i < |places|
  {
    if NewLine(places, i) then Shift(Anchor(places[i]), offset)
    else if i == 0 then Point(0.0, 0.0)
    else LineOrigin(places, offset, i - 1)
  }

  function Origin(places: seq<Place>, offset: Point, continuous: bool, i: nat): Point
    requires i < |places| && places[i].word.Some?
  {
    if continuous then LineOrigin(places, offset, i) else Shift(places[i].word.value.pos, offset)
  }

  /** The glyphs of the first n places: every word's bytes, in order, each in its font and on its line. */
  function Expected(fonts: Fonts, places: seq<Place>, offset: Point, continuous: bool, n: nat): seq<Glyph>
    requires n <= |places|
  {
    if n == 0 then []
    else if places[n - 1].word == None then Expected(fonts, places, offset, continuous, n - 1)
    else
      Expected(fonts, places, offset, continuous, n - 1)
      + Paint(Origin(places, offset, continuous, n - 1), FontAfter(fonts, places, n).1, places[n - 1].word.value.text)
  }

  // ---------- The compiler ----------

  method GetFontSetString(fonts: Fonts, w: Word) returns (ops: seq<Op>)
    ensures ops == if fonts.Settable(w.font) then [Tf(fonts.alias(w.font), fonts.size)] else []
  {
    if |fonts.alias(w.font)| <= 0 || fonts.size <= 0.0 {
      return [];
    }
    return [Tf(fonts.alias(w.font), fonts.size)];
  }

  method GetWordRenderString(words: string) returns (ops: seq<Op>)
    ensures ops == if words != "" then [Tj(words)] else []
  {
    if |words| > 0 {
      return [Tj(words)];
    }
    return [];
  }

  /** Appends the collected words, so that nothing is left to show. */
  method Flush(stream: seq<Op>, words: string) returns (out: seq<Op>)
    ensures Exec(out) == Step(Exec(stream), Tj(words))
  {
    var ops := GetWordRenderString(words);
    out := stream + ops;
    if words == "" {
      assert out == stream;
      assert Exec(stream).shown + Paint(Exec(stream).origin, Exec(stream).font, "") == Exec(stream).shown;
    } else {
      ExecOne(stream, Tj(words));
    }
  }

  method MoveTo(stream: seq<Op>, ptOld: Point, ptNew: Point) returns (out: seq<Op>)
    requires Exec(stream).origin == ptOld
    ensures Exec(out) == Exec(stream).(origin := ptNew)
  {
    if ptNew.x != ptOld.x || ptNew.y != ptOld.y {
      ExecOne(stream, Td(ptNew.x - ptOld.x, ptNew.y - ptOld.y));
      out := stream + [Td(ptNew.x - ptOld.x, ptNew.y - ptOld.y)];
    } else {
      out := stream;
    }
  }

  method SetFont(stream: seq<Op>, fonts: Fonts, w: Word) returns (out: seq<Op>)
    ensures Exec(out) == if fonts.Settable(w.font) then Exec(stream).(font := Some(fonts.Of(w.font))) else Exec(stream)
  {
    var ops := GetFontSetString(fonts, w);
    out := stream + ops;
    if fonts.Settable(w.font) {
      ExecOne(stream, Tf(fonts.alias(w.font), fonts.size));
    } else {
      assert out == stream;
    }
  }

  /** One place more: its glyphs, its font and its line. */
  lemma NextPlace(fonts: Fonts, places: seq<Place>, offset: Point, continuous: bool, i: nat)
    requires i < |places|
    ensures Expected(fonts, places, offset, continuous, i + 1) ==
      match places[i].word
      case None => Expected(fonts, places, offset, continuous, i)
      case Some(w) => Expected(fonts, places, offset, continuous, i)
                      + Paint(Origin(places, offset, continuous, i), FontAfter(fonts, places, i + 1).1, w.text)
    ensures FontAfter(fonts, places, i + 1) ==
      match places[i].word
      case None => FontAfter(fonts, places, i)
      case Some(w) =>
        var (index, font) := FontAfter(fonts, places, i);
        (w.font, if w.font != index && fonts.Settable(w.font) then Some(fonts.Of(w.font)) else font)
    ensures LineOrigin(places, offset, i) ==
      if NewLine(places, i) then Shift(Anchor(places[i]), offset)
      else if i == 0 then Point(0.0, 0.0) else LineOrigin(places, offset, i - 1)
  {
  }

  lemma ShowNothing(s: TextState)
    ensures Step(s, Tj("")) == s
  {
    assert s.shown + Paint(s.origin, s.font, "") == s.shown;
  }

  /** The font in force once the word's font was asked for, when cur is the index asked for last. */
  function FontFor(fonts: Fonts, cur: int, font: Option<Font>, w: Word): Option<Font> {
    if w.font != cur && fonts.Settable(w.font) then Some(fonts.Of(w.font)) else font
  }

  /** The glyphs shown once the collected words are flushed. */
  function Pending(stream: seq<Op>, words: string): seq<Glyph> {
    Step(Exec(stream), Tj(words)).shown
  }

  /** One round of the loop in continuous mode: words are collected until the line or the font changes. */
  method ContinuousWord(stream0: seq<Op>, words0: string, curFont: int, w: Word, fonts: Fonts)
    returns (stream: seq<Op>, words: string)
    ensures Exec(stream).origin == Exec(stream0).origin
    ensures Exec(stream).font == FontFor(fonts, curFont, Exec(stream0).font, w)
    ensures Pending(stream, words) == Pending(stream0, words0) + Paint(Exec(stream).origin, Exec(stream).font, w.text)
  {
    hide Exec;
    stream, words := stream0, words0;
    if w.font != curFont {
      stream := Flush(stream, words);
      words := "";
      ShowNothing(Exec(stream));
      stream := SetFont(stream, fonts, w);
      ShowNothing(Exec(stream));
    }
    PaintConcat(Exec(stream).origin, Exec(stream).font, words, w.text);
    Regroup(Exec(stream).shown, Paint(Exec(stream).origin, Exec(stream).font, words),
            Paint(Exec(stream).origin, Exec(stream).font, w.text));
    words := words + w.text;
  }

  method ContinuousLine(stream0: seq<Op>, words0: string, ptOld: Point, ptNew: Point) returns (stream: seq<Op>, words: string)
    requires Exec(stream0).origin == ptOld
    ensures Exec(stream).origin == ptNew && Exec(stream).font == Exec(stream0).font
    ensures Pending(stream, words) == Pending(stream0, words0)
  {
    hide Exec;
    stream := Flush(stream0, words0);
    words := "";
    stream := MoveTo(stream, ptOld, ptNew);
    ShowNothing(Exec(stream));
  }

  method PlainWord(stream0: seq<Op>, ptOld: Point, ptNew: Point, curFont: int, w: Word, fonts: Fonts)
    returns (stream: seq<Op>)
    requires Exec(stream0).origin == ptOld
    ensures Exec(stream).origin == ptNew
    ensures Exec(stream).font == FontFor(fonts, curFont, Exec(stream0).font, w)
    ensures Exec(stream).shown == Exec(stream0).shown + Paint(ptNew, Exec(stream).font, w.text)
  {
    hide Exec;
    stream := MoveTo(stream0, ptOld, ptNew);
    if w.font != curFont {
      stream := SetFont(stream, fonts, w);
    }
    stream := Flush(stream, w.text);
  }

  method GetEditAppStream(places: seq<Place>, offset: Point, continuous: bool, fonts: Fonts)
    returns (stream: seq<Op>)
    ensures Exec(stream).shown == Expected(fonts, places, offset, continuous, |places|)
  {
    stream := [];
    var words := "";
    var curFont := -1;
    var ptOld := Point(0.0, 0.0);
    var oldLine := (-1, -1);
    ShowNothing(Exec(stream));
    var i := 0;
    while i < |places|
      invariant i <= |places|
      invariant Exec(stream).origin == ptOld
      invariant (curFont, Exec(stream).font) == FontAfter(fonts, places, i)
      invariant Pending(stream, words) == Expected(fonts, places, offset, continuous, i)
      invariant !continuous ==> words == ""
      invariant oldLine == if i == 0 || !continuous then (-1, -1) else (places[i - 1].section, places[i - 1].line)
      invariant continuous ==> ptOld == if i == 0 then Point(0.0, 0.0) else LineOrigin(places, offset, i - 1)
    {
      hide Expected, FontAfter, LineOrigin, Exec, Paint, Pending;
      NextPlace(fonts, places, offset, continuous, i);
      var place := places[i];
      if continuous {
        if (place.section, place.line) != oldLine {
          var ptNew := Shift(if place.word.Some? then place.word.value.pos else place.linePos, offset);
          stream, words := ContinuousLine(stream, words, ptOld, ptNew);
          ptOld := ptNew;
        }
        if place.word.Some? {
          stream, words := ContinuousWord(stream, words, curFont, place.word.value, fonts);
          curFont := place.word.value.font;
        }
        oldLine := (place.section, place.line);
      } else if place.word.Some? {
        var w := place.word.value;
        var ptNew := Shift(w.pos, offset);
        NothingPending(stream);
        stream := PlainWord(stream, ptOld, ptNew, curFont, w, fonts);
        NothingPending(stream);
        ptOld := ptNew;
        curFont := w.font;
      }
      i := i + 1;
    }
    stream := Flush(stream, words);
  }

  lemma NothingPending(stream: seq<Op>)
    ensures Pending(stream, "") == Exec(stream).shown
  {
    ShowNothing(Exec(stream));
  }

  // ---------- What the expected glyphs are ----------

  function AllText(places: seq<Place>, n: nat): string
    requires n <= |places|
  {
    if n == 0 then ""
    else AllText(places, n - 1) + (if places[n - 1].word.Some? then places[n - 1].word.value.text else "")
  }

  function Bytes(gs: seq<Glyph>): string {
    seq(|gs|, i requires 0 <= i < |gs| => gs[i].byte)
  }

  function FontsOf(gs: seq<Glyph>): seq<Option<Font>> {
    seq(|gs|, i requires 0 <= i < |gs| => gs[i].font)
  }

  /** Both modes show the words' bytes, in order and complete, and both show each byte in the same font. */
  lemma {:induction false} ModesShowTheSame(fonts: Fonts, places: seq<Place>, offset: Point, n: nat)
    requires n <= |places|
    ensures var (c, p) := (Expected(fonts, places, offset, true, n), Expected(fonts, places, offset, false, n));
      Bytes(c) == Bytes(p) == AllText(places, n) && FontsOf(c) == FontsOf(p)
  {
    if n > 0 {
      ModesShowTheSame(fonts, places, offset, n - 1);
      if places[n - 1].word.Some? {
        var (font, text) := (FontAfter(fonts, places, n).1, places[n - 1].word.value.text);
        var (c, p) := (Expected(fonts, places, offset, true, n - 1), Expected(fonts, places, offset, false, n - 1));
        var (oc, op) := (Origin(places, offset, true, n - 1), Origin(places, offset, false, n - 1));
        Split(c, Paint(oc, font, text));
        Split(p, Paint(op, font, text));
        assert Bytes(Paint(oc, font, text)) == text == Bytes(Paint(op, font, text));
        assert FontsOf(Paint(oc, font, text)) == FontsOf(Paint(op, font, text));
      } else {
        assert AllText(places, n) == AllText(places, n - 1);
      }
    }
  }

  lemma Split(a: seq<Glyph>, b: seq<Glyph>)
    ensures Bytes(a + b) == Bytes(a) + Bytes(b) && FontsOf(a + b) == FontsOf(a) + FontsOf(b)
  {
  }

  // ---------- Where each byte of a word is shown, and in which font ----------

  /** The glyphs of the word at i stand where the bytes of the words before it end. */
  lemma {:induction false} WordGlyphs(fonts: Fonts, places: seq<Place>, offset: Point, continuous: bool, i: nat, n: nat)
    requires i < n <= |places| && places[i].word.Some?
    ensures var (at, text) := (|AllText(places, i)|, places[i].word.value.text);
      var shown := Expected(fonts, places, offset, continuous, n);
      && at + |text| <= |shown|
      && shown[at..at + |text|] == Paint(Origin(places, offset, continuous, i), FontAfter(fonts, places, i + 1).1, text)
    decreases n
  {
    hide Origin, FontAfter, AllText, Paint;
    var (at, text) := (|AllText(places, i)|, places[i].word.value.text);
    var before := Expected(fonts, places, offset, continuous, n - 1);
    ExpectedLength(fonts, places, offset, continuous, n - 1);
    if i < n - 1 {
      WordGlyphs(fonts, places, offset, continuous, i, n - 1);
      ExpectedGrows(fonts, places, offset, continuous, n);
      hide Expected;
      PrefixSlice(before, Expected(fonts, places, offset, continuous, n), at, at + |text|);
    } else {
      var glyphs := Paint(Origin(places, offset, continuous, i), FontAfter(fonts, places, i + 1).1, text);
      assert Expected(fonts, places, offset, continuous, n) == before + glyphs;
      hide Expected;
      SuffixSlice(before, glyphs);
    }
  }

  lemma ExpectedGrows(fonts: Fonts, places: seq<Place>, offset: Point, continuous: bool, n: nat)
    requires 0 < n <= |places|
    ensures Expected(fonts, places, offset, continuous, n - 1) <= Expected(fonts, places, offset, continuous, n)
  {
    hide Origin, FontAfter, Paint;
  }

  lemma PrefixSlice<T>(a: seq<T>, b: seq<T>, from: nat, to: nat)
    requires a <= b && from <= to <= |a|
    ensures b[from..to] == a[from..to]
  {
  }

  lemma SuffixSlice<T>(a: seq<T>, b: seq<T>)
    ensures (a + b)[|a|..|a| + |b|] == b
  {
  }

  lemma {:induction false} ExpectedLength(fonts: Fonts, places: seq<Place>, offset: Point, continuous: bool, n: nat)
    requires n <= |places|
    ensures |Expected(fonts, places, offset, continuous, n)| == |AllText(places, n)|
  {
    if n > 0 { ExpectedLength(fonts, places, offset, continuous, n - 1); }
  }

  /** Byte k of the word at place i, as the edit is shown. */
  function Shown(fonts: Fonts, places: seq<Place>, offset: Point, continuous: bool, i: nat, k: nat): Glyph
    requires i < |places| && places[i].word.Some? && k < |places[i].word.value.text|
  {
    WordGlyphs(fonts, places, offset, continuous, i, |places|);
    Expected(fonts, places, offset, continuous, |places|)[|AllText(places, i)| + k]
  }

  /** From place f up to place i the words are on one line, which begins at f. */
  predicate BeginsLine(places: seq<Place>, f: nat, i: nat)
    requires f <= i < |places|
  {
    && (forall j :: f <= j <= i ==> places[j].section == places[f].section && places[j].line == places[f].line)
    && (f > 0 ==> places[f - 1].section != places[f].section || places[f - 1].line != places[f].line)
  }

  /** In plain mode every word is shown from its own position, moved by the offset. In continuous mode a whole line is
      shown from the position of its first word, or of the line when it does not begin with a word; only on a first
      line numbered -1 like the place before all places the text stays at the origin. */
  lemma WordShownFrom(fonts: Fonts, places: seq<Place>, offset: Point, continuous: bool, f: nat, i: nat, k: nat)
    requires f <= i < |places| && places[i].word.Some? && k < |places[i].word.value.text|
    requires BeginsLine(places, f, i)
    ensures var (g, w, first) := (Shown(fonts, places, offset, continuous, i, k), places[i].word.value, places[f]);
      && g.byte == w.text[k]
      && (!continuous ==> g.origin == Point(w.pos.x + offset.x, w.pos.y + offset.y))
      && (continuous && (f > 0 || first.section != -1 || first.line != -1) ==>
            g.origin == match first.word
                        case Some(v) => Point(v.pos.x + offset.x, v.pos.y + offset.y)
                        case None => Point(first.linePos.x + offset.x, first.linePos.y + offset.y))
      && (continuous && f == 0 && first.section == -1 && first.line == -1 ==> g.origin == Point(0.0, 0.0))
  {
    ShownAt(fonts, places, offset, continuous, i, k);
    hide Shown, FontAfter;
    if NewLine(places, f) {
      LineSharesOrigin(places, offset, f, i);
    } else {
      FirstLineStays(places, offset, i);
    }
  }

  lemma ShownAt(fonts: Fonts, places: seq<Place>, offset: Point, continuous: bool, i: nat, k: nat)
    requires i < |places| && places[i].word.Some? && k < |places[i].word.value.text|
    ensures Shown(fonts, places, offset, continuous, i, k)
         == Glyph(Origin(places, offset, continuous, i), FontAfter(fonts, places, i + 1).1, places[i].word.value.text[k])
  {
    hide Expected, Origin, FontAfter, AllText;
    WordGlyphs(fonts, places, offset, continuous, i, |places|);
    var (at, text) := (|AllText(places, i)|, places[i].word.value.text);
    var shown := Expected(fonts, places, offset, continuous, |places|);
    var glyphs := Paint(Origin(places, offset, continuous, i), FontAfter(fonts, places, i + 1).1, text);
    assert glyphs[k] == Glyph(Origin(places, offset, continuous, i), FontAfter(fonts, places, i + 1).1, text[k]);
    hide Paint;
    assert shown[at + k] == shown[at..at + |text|][k] == glyphs[k];
  }

  lemma {:induction false} FirstLineStays(places: seq<Place>, offset: Point, i: nat)
    requires i < |places| && forall j :: 0 <= j <= i ==> places[j].section == -1 && places[j].line == -1
    ensures LineOrigin(places, offset, i) == Point(0.0, 0.0)
  {
    if i > 0 { FirstLineStays(places, offset, i - 1); }
  }

  /** Moving the edit moves what it shows: every byte by as much, in the same font, and nothing else changes. */
  lemma {:induction false} OffsetMovesAll(fonts: Fonts, places: seq<Place>, o: Point, d: Point, continuous: bool, n: nat)
    requires n <= |places|
    requires continuous && places != [] ==> places[0].section != -1 || places[0].line != -1
    ensures var (here, there) := (Expected(fonts, places, o, continuous, n),
                                  Expected(fonts, places, Point(o.x + d.x, o.y + d.y), continuous, n));
      && |there| == |here|
      && forall k :: 0 <= k < |here| ==>
           there[k] == Glyph(Point(here[k].origin.x + d.x, here[k].origin.y + d.y), here[k].font, here[k].byte)
  {
    if n > 0 {
      OffsetMovesAll(fonts, places, o, d, continuous, n - 1);
      OffsetMovesLine(places, o, d, n - 1);
    }
  }

  lemma {:induction false} OffsetMovesLine(places: seq<Place>, o: Point, d: Point, i: nat)
    requires i < |places|
    ensures places[0].section != -1 || places[0].line != -1 ==>
      LineOrigin(places, Point(o.x + d.x, o.y + d.y), i)
        == Point(LineOrigin(places, o, i).x + d.x, LineOrigin(places, o, i).y + d.y)
  {
    if i > 0 { OffsetMovesLine(places, o, d, i - 1); }
  }

  /** A byte is shown in the font of its word's index, by its name and at the edit's size, exactly when that has a
      name, the size is positive, and this or an earlier word asks for another index than -1. */
  lemma ShownInOwnFontIff(fonts: Fonts, places: seq<Place>, offset: Point, continuous: bool, i: nat, k: nat)
    requires i < |places| && places[i].word.Some? && k < |places[i].word.value.text|
    ensures var (g, w) := (Shown(fonts, places, offset, continuous, i, k), places[i].word.value);
      g.font == Some(Font(fonts.alias(w.font), fonts.size)) <==>
        && |fonts.alias(w.font)| > 0 && fonts.size > 0.0
        && exists j :: 0 <= j <= i && places[j].word.Some? && places[j].word.value.font != -1
  {
    ShownAt(fonts, places, offset, continuous, i, k);
    hide Shown, Origin, FontAfter;
    OwnFontIff(fonts, places, i);
    if !StillInitial(places, i + 1) {
      var j :| 0 <= j < i + 1 && places[j].word.Some? && places[j].word.value.font != -1;
      assert j <= i;
    }
  }

  /** In continuous mode all places of a line share the origin of its first place. */
  lemma {:induction false} LineSharesOrigin(places: seq<Place>, offset: Point, j: nat, i: nat)
    requires j <= i < |places| && NewLine(places, j)
    requires forall k :: j < k <= i ==> !NewLine(places, k)
    ensures LineOrigin(places, offset, i) == Shift(Anchor(places[j]), offset)
  {
    if j < i { LineSharesOrigin(places, offset, j, i - 1); }
  }

  /** The word at i is shown in the font of its own index, at the size of the edit. */
  predicate OwnFont(fonts: Fonts, places: seq<Place>, i: nat)
    requires i < |places| && places[i].word.Some?
  {
    FontAfter(fonts, places, i + 1).1 == Some(fonts.Of(places[i].word.value.font))
  }

  /** No word before n asks for another font than the initial index. */
  predicate StillInitial(places: seq<Place>, n: nat)
    requires n <= |places|
  {
    forall j :: 0 <= j < n && places[j].word.Some? ==> places[j].word.value.font == -1
  }

  /** The font in force is that of the index asked for last, if it can be set and one has been asked for; no font is
      in force that cannot be set. */
  lemma {:induction false} FontInForce(fonts: Fonts, places: seq<Place>, n: nat)
    requires n <= |places|
    ensures var (index, font) := FontAfter(fonts, places, n);
      && (StillInitial(places, n) ==> index == -1 && font == None)
      && (!StillInitial(places, n) && fonts.Settable(index) ==> font == Some(fonts.Of(index)))
      && (font.Some? ==> font.value.size > 0.0 && |font.value.alias| > 0)
  {
    if n > 0 {
      FontInForce(fonts, places, n - 1);
      assert StillInitial(places, n) <==>
             StillInitial(places, n - 1) && (places[n - 1].word.Some? ==> places[n - 1].word.value.font == -1);
    }
  }

  /** Word by word: it is shown in its own font exactly when that can be set and, where it is the index -1 that the
      program starts from, an earlier word has asked for another. */
  lemma OwnFontIff(fonts: Fonts, places: seq<Place>, i: nat)
    requires i < |places| && places[i].word.Some?
    ensures OwnFont(fonts, places, i) <==>
            fonts.Settable(places[i].word.value.font) && !StillInitial(places, i + 1)
  {
    FontInForce(fonts, places, i + 1);
    assert FontAfter(fonts, places, i + 1).0 == places[i].word.value.font;
  }

  predicate FirstWord(places: seq<Place>, i: nat)
    requires i < |places|
  {
    places[i].word.Some? && forall j :: 0 <= j < i ==> places[j].word == None
  }

  lemma {:induction false} SomeFirstWord(places: seq<Place>, i: nat) returns (f: nat)
    requires i < |places| && places[i].word.Some?
    ensures f <= i && FirstWord(places, f)
  {
    if FirstWord(places, i) { f := i; } else {
      var j :| 0 <= j < i && places[j].word != None;
      f := SomeFirstWord(places, j);
    }
  }

  /** Every word is shown in its own font exactly when every one can be set and the first is not the index -1. */
  lemma AllOwnFontIff(fonts: Fonts, places: seq<Place>)
    ensures (forall i :: 0 <= i < |places| && places[i].word.Some? ==> OwnFont(fonts, places, i)) <==>
      && (forall i :: 0 <= i < |places| && places[i].word.Some? ==> fonts.Settable(places[i].word.value.font))
      && (forall i :: 0 <= i < |places| && FirstWord(places, i) ==> places[i].word.value.font != -1)
  {
    hide OwnFont, Fonts.Settable;
    forall i | 0 <= i < |places| && places[i].word.Some?
      ensures OwnFont(fonts, places, i) <==>
              fonts.Settable(places[i].word.value.font) && !StillInitial(places, i + 1)
      ensures StillInitial(places, i + 1) ==> exists f :: 0 <= f < |places| && FirstWord(places, f) && places[f].word.value.font == -1
      ensures FirstWord(places, i) && places[i].word.value.font == -1 ==> StillInitial(places, i + 1)
    {
      OwnFontIff(fonts, places, i);
      var f := SomeFirstWord(places, i);
    }
  }

  /** A font without a name leaves the font of the word before in force. */
  lemma NamelessFontKeepsThePrevious(fonts: Fonts, places: seq<Place>, i: nat)
    requires i < |places| && places[i].word.Some? && !fonts.Settable(places[i].word.value.font)
    ensures FontAfter(fonts, places, i + 1).1 == FontAfter(fonts, places, i).1
    ensures !OwnFont(fonts, places, i)
  {
    OwnFontIff(fonts, places, i);
  }
}
