/** What an appearance stream holds, read off its operators in order whoever wrote them: its text objects, and the
    paths it makes. */
module StreamContents {
  import opened Basics
  import EditStream
  import opened ContentGrammar
  import opened AppStreams
  import opened PushButtons
  import opened Sequences

  // ---------- Text objects ----------

  /** The text operators between a BT and its ET, whether a colour is set for them, and whether a path was filled under
      them, since the text object before or the start of the marked content. */
  datatype ShownText = ShownText(bar: bool, colored: bool, text: seq<EditStream.Op>)

  datatype Reading = Reading(bar: bool, colored: bool, text: seq<EditStream.Op>, read: seq<ShownText>)

  const NOTHING_READ := Reading(false, false, [], [])

  function ReadOne(r: Reading, op: Op): Reading {
    match op
    case BeginMarked => r.(bar := false)
    case Fill => r.(bar := true)
    case BeginText => r.(colored := false, text := [])
    case Color => r.(colored := true)
    case Text(t) => r.(text := r.text + [t])
    case EndText => r.(bar := false, read := r.read + [ShownText(r.bar, r.colored, r.text)])
    case _ => r
  }

  function ReadOn(r: Reading, ops: seq<Op>): Reading
    decreases |ops|
  {
    if ops == [] then r else ReadOn(ReadOne(r, ops[0]), ops[1..])
  }

  function TextObjects(ops: seq<Op>): seq<ShownText> { ReadOn(NOTHING_READ, ops).read }

  lemma {:induction false} ReadConcat(r: Reading, a: seq<Op>, b: seq<Op>)
    ensures ReadOn(r, a + b) == ReadOn(ReadOn(r, a), b)
    decreases |a|
  {
    if a == [] {
      assert a + b == b;
    } else {
      assert (a + b)[1..] == a[1..] + b;
      ReadConcat(ReadOne(r, a[0]), a[1..], b);
    }
  }

  lemma ReadSingle(r: Reading, op: Op)
    ensures ReadOn(r, [op]) == ReadOne(r, op)
  {
    assert [op][1..] == [];
  }

  lemma ReadEnclosed(r: Reading, first: Op, body: seq<Op>, last: Op)
    ensures ReadOn(r, [first] + body + [last]) == ReadOne(ReadOn(ReadOne(r, first), body), last)
  {
    ReadConcat(r, [first] + body, [last]);
    ReadConcat(r, [first], body);
    ReadSingle(r, first);
    ReadSingle(ReadOn(ReadOne(r, first), body), last);
  }

  /** Operators that hold no text object. */
  predicate NoText(ops: seq<Op>) { forall i :: 0 <= i < |ops| ==> !ops[i].EndText? }

  lemma {:induction false} ReadNoText(r: Reading, ops: seq<Op>)
    requires NoText(ops)
    ensures ReadOn(r, ops).read == r.read
    decreases |ops|
  {
    if ops != [] { ReadNoText(ReadOne(r, ops[0]), ops[1..]); }
  }

  /** Operators that paint no bar either. */
  lemma {:induction false} ReadPlain(r: Reading, ops: seq<Op>)
    requires NoText(ops) && forall i :: 0 <= i < |ops| ==> !ops[i].Fill?
    ensures ReadOn(r, ops).bar ==> r.bar
    decreases |ops|
  {
    if ops != [] { ReadPlain(ReadOne(r, ops[0]), ops[1..]); }
  }

  lemma {:induction false} ReadTexts(r: Reading, edit: seq<EditStream.Op>)
    ensures ReadOn(r, Texts(edit)) == r.(text := r.text + edit)
    decreases |edit|
  {
    if edit != [] {
      assert Texts(edit)[0] == Text(edit[0]) && Texts(edit)[1..] == Texts(edit[1..]);
      ReadTexts(ReadOne(r, Text(edit[0])), edit[1..]);
      assert r.text + [edit[0]] + edit[1..] == r.text + edit;
    } else {
      assert r.text + edit == r.text;
    }
  }

  /** A text object with these texts, in this colour. */
  lemma ReadTextBlock(r: Reading, color: ColorType, edit: seq<EditStream.Op>)
    ensures ReadOn(r, TextBlock(ColorOps(color) + Texts(edit)))
         == Reading(false, color != Transparent, edit, r.read + [ShownText(r.bar, color != Transparent, edit)])
  {
    var begun := ReadOne(r, BeginText);
    ReadEnclosed(r, BeginText, ColorOps(color) + Texts(edit), EndText);
    ReadConcat(begun, ColorOps(color), Texts(edit));
    if color != Transparent { ReadSingle(begun, Color); }
    var colored := begun.(colored := color != Transparent);
    assert ReadOn(begun, ColorOps(color)) == colored;
    ReadTexts(colored, edit);
    assert [] + edit == edit;
  }

  /** The text of a combo box or text field is one text object with exactly the operators of its edit. */
  lemma ReadFieldText(r: Reading, edit: seq<EditStream.Op>, overflows: bool, color: ColorType)
    ensures ReadOn(r, FieldText(edit, overflows, color)).read
         == r.read + (if edit == [] then [] else [ShownText(false, color != Transparent, edit)])
  {
    hide Texts, ReadOn;
    if edit != [] {
      var clip := if overflows then CLIP_TO_RECT else [];
      var text := TextBlock(ColorOps(color) + Texts(edit));
      var marked := ReadOne(r, BeginMarked);
      ReadEnclosed(r, BeginMarked, Quoted(clip + text), EndMarked);
      ReadEnclosed(marked, Save, clip + text, Restore);
      ReadConcat(marked, clip, text);
      ReadNoText(marked, clip);
      ReadPlain(marked, clip);
      ReadTextBlock(ReadOn(marked, clip), color, edit);
    } else {
      assert ReadOn(r, []) == r by { ReadNothing(r); }
      assert r.read + [] == r.read;
    }
  }

  lemma ReadNothing(r: Reading)
    ensures ReadOn(r, []) == r
  {
  }

  lemma NoTextConcat(a: seq<Op>, b: seq<Op>)
    requires NoText(a) && NoText(b)
    ensures NoText(a + b)
  {
  }

  lemma PaintedHasNoText(c: ColorType, settings: seq<Op>, path: seq<Op>, paint: Op)
    requires NoText(settings) && NoText(path) && !paint.EndText?
    ensures NoText(Painted(c, settings, path, paint))
  {
  }

  lemma BorderHasNoText(width: real, style: BorderStyle, color: ColorType, leftTop: ColorType, rightBottom: ColorType)
    ensures NoText(Border(width, style, color, leftTop, rightBottom))
  {
    PaintedHasNoText(color, [], [Rect, Rect], FillEvenOdd);
    PaintedHasNoText(color, [LineState, LineState], [MoveTo, LineTo, LineTo, LineTo, LineTo], Stroke);
    PaintedHasNoText(color, [LineState], [MoveTo, LineTo], Stroke);
    PaintedHasNoText(leftTop, [], HALF_BORDER, Fill);
    PaintedHasNoText(rightBottom, [], HALF_BORDER, Fill);
    hide Painted;
    var (x, y) := (Painted(leftTop, [], HALF_BORDER, Fill), Painted(rightBottom, [], HALF_BORDER, Fill));
    NoTextConcat(x, y);
    NoTextConcat(x + y, Painted(color, [], [Rect, Rect], FillEvenOdd));
    var body := BorderBody(style, color, leftTop, rightBottom);
    assert NoText(body);
    hide BorderBody, NoText;
    assert NoText([Save]) && NoText([Restore]) && NoText([]) by { NothingHasNoText(); }
    NoTextConcat([Save], body);
    NoTextConcat([Save] + body, [Restore]);
  }

  lemma NothingHasNoText()
    ensures NoText([Save]) && NoText([Restore]) && NoText([])
  {
  }

  lemma BackdropHasNoText(look: Look)
    ensures NoText(Backdrop(look))
  {
    BorderHasNoText(look.width * 2.0, Beveled, look.border, Gray, Divided(look.fill));
    BorderHasNoText(look.width * 2.0, Inset, look.border, Gray, Gray);
    BorderHasNoText(look.width, look.style, look.border, Transparent, Transparent);
    hide Border;
    assert NoText(RectFill(look.fill)) && NoText(LookBorder(look));
    hide LookBorder, RectFill, NoText;
    NoTextConcat(RectFill(look.fill), LookBorder(look));
  }

  lemma DropButtonHasNoText(empty: bool, large: bool)
    ensures NoText(DropButton(empty, large))
  {
    BorderHasNoText(2.0, Beveled, Gray, Gray, Gray);
    hide Border;
    var (face, arrow) := (Quoted([Color] + ([Rect] + [Fill])), Quoted([Color] + ([MoveTo, LineTo, LineTo, LineTo] + [Fill])));
    var border := Quoted(Border(2.0, Beveled, Gray, Gray, Gray));
    assert NoText(face) && NoText(arrow) && NoText(border);
    hide NoText, Quoted;
    NoTextConcat(face, border);
    NoTextConcat(face + border, arrow);
    assert face + border + [] == face + border;
    assert NoText([]) by { NothingHasNoText(); }
  }

  lemma {:induction false} CombLinesHaveNoText(cells: int)
    ensures NoText(CombLines(cells))
    decreases cells
  {
    if cells > 1 { CombLinesHaveNoText(cells - 1); }
  }

  lemma CombHasNoText(comb: bool, style: BorderStyle, color: ColorType, cells: int)
    ensures NoText(Comb(comb, style, color, cells))
  {
    CombLinesHaveNoText(cells);
  }

  // ---------- What the text fields show ----------

  /** After the backdrop nothing has been read. */
  lemma ReadBackdrop(look: Look, rest: seq<Op>) returns (r: Reading)
    ensures r.read == [] && TextObjects(Backdrop(look) + rest) == ReadOn(r, rest).read
  {
    BackdropHasNoText(look);
    ReadConcat(NOTHING_READ, Backdrop(look), rest);
    ReadNoText(NOTHING_READ, Backdrop(look));
    r := ReadOn(NOTHING_READ, Backdrop(look));
  }

  function TextField(look: Look, edit: seq<EditStream.Op>, overflows: bool, color: ColorType, comb: bool, cells: int)
    : seq<Op>
  {
    Backdrop(look) + Comb(comb, look.style, look.border, cells) + FieldText(edit, overflows, color)
  }

  function ComboBox(look: Look, edit: seq<EditStream.Op>, overflows: bool, color: ColorType, empty: bool, large: bool)
    : seq<Op>
  {
    Backdrop(look) + FieldText(edit, overflows, color) + DropButton(empty, large)
  }

  /** A text field shows its edit: its stream has one text object, over no bar, in the text colour, and in it exactly
      the operators of the edit in their order; none when the edit is empty. */
  lemma TextFieldShowsEdit(look: Look, edit: seq<EditStream.Op>, overflows: bool, color: ColorType, comb: bool, cells: int)
    ensures TextObjects(TextField(look, edit, overflows, color, comb, cells))
         == if edit == [] then [] else [ShownText(false, color != Transparent, edit)]
  {
    var (lines, text) := (Comb(comb, look.style, look.border, cells), FieldText(edit, overflows, color));
    hide Backdrop, Comb, FieldText, ReadOn;
    Regroup(Backdrop(look), lines, text);
    var r := ReadBackdrop(look, lines + text);
    CombHasNoText(comb, look.style, look.border, cells);
    ReadConcat(r, lines, text);
    ReadNoText(r, lines);
    ReadFieldText(ReadOn(r, lines), edit, overflows, color);
  }

  /** So does a combo box. */
  lemma ComboBoxShowsEdit(look: Look, edit: seq<EditStream.Op>, overflows: bool, color: ColorType, empty: bool, large: bool)
    ensures TextObjects(ComboBox(look, edit, overflows, color, empty, large))
         == if edit == [] then [] else [ShownText(false, color != Transparent, edit)]
  {
    var (text, button) := (FieldText(edit, overflows, color), DropButton(empty, large));
    hide Backdrop, DropButton, FieldText, ReadOn;
    Regroup(Backdrop(look), text, button);
    var r := ReadBackdrop(look, text + button);
    ReadConcat(r, text, button);
    ReadFieldText(r, edit, overflows, color);
    DropButtonHasNoText(empty, large);
    ReadNoText(ReadOn(r, text), button);
  }

  // ---------- What the list box shows ----------

  /** One option: over a bar exactly when it is selected, in the text colour or in the colour of selected text. */
  lemma ReadListItem(r: Reading, item: ListItem, color: ColorType)
    requires !r.bar
    ensures var after := ReadOn(r, ListItemOps(item, color));
      && !after.bar
      && after.read == r.read + [ShownText(item.selected, item.selected || color != Transparent, item.edit)]
  {
    hide Texts, ReadOn;
    if item.selected {
      var (bar, text) := (Quoted([Color] + ([Rect] + [Fill])), TextBlock(ColorOps(Gray) + Texts(item.edit)));
      ReadConcat(r, bar, text);
      ReadBar(r);
      ReadTextBlock(ReadOn(r, bar), Gray, item.edit);
    } else {
      ReadTextBlock(r, color, item.edit);
    }
  }

  lemma ReadBar(r: Reading)
    ensures ReadOn(r, Quoted([Color] + ([Rect] + [Fill]))) == r.(bar := true, colored := true)
  {
    ReadEnclosed(r, Save, [Color] + ([Rect] + [Fill]), Restore);
    ReadConcat(r, [Color], [Rect] + [Fill]);
    ReadConcat(r.(colored := true), [Rect], [Fill]);
    ReadSingle(r, Color);
    ReadSingle(r.(colored := true), Rect);
    ReadSingle(r.(colored := true), Fill);
  }

  lemma {:induction false} ReadListOps(r: Reading, items: seq<ListItem>, color: ColorType)
    requires !r.bar
    ensures var after := ReadOn(r, ListOps(items, color));
      && !after.bar && |after.read| == |r.read| + |items| && after.read[..|r.read|] == r.read
      && forall i :: 0 <= i < |items| ==>
           after.read[|r.read| + i] == ShownText(items[i].selected, items[i].selected || color != Transparent, items[i].edit)
    decreases |items|
  {
    hide ReadOn, ListItemOps;
    if items == [] {
      ReadNothing(r);
    } else {
      var (front, last) := (items[..|items| - 1], items[|items| - 1]);
      ReadListOps(r, front, color);
      ReadConcat(r, ListOps(front, color), ListItemOps(last, color));
      ReadListItem(ReadOn(r, ListOps(front, color)), last, color);
    }
  }

  /** A list box shows its options from the top visible one on: one text object for each, with exactly the operators
      of its edit, and a filled bar under exactly the selected ones. */
  lemma ListBoxShowsOptions(look: Look, edits: seq<seq<EditStream.Op>>, selection: seq<int>, top: nat, color: ColorType)
    requires top <= |edits|
    ensures var shown := TextObjects(Backdrop(look) + ListBox(Items(edits, selection, top, |edits|), color));
      && |shown| == |edits| - top
      && forall i :: 0 <= i < |shown| ==>
           && shown[i].text == edits[top + i]
           && (shown[i].bar <==> top + i in selection)
           && (shown[i].colored <==> top + i in selection || color != Transparent)
  {
    var items := Items(edits, selection, top, |edits|);
    hide Backdrop, ReadOn, Items, ListBox;
    var r := ReadBackdrop(look, ListBox(items, color));
    ReadListBox(r, items, color);
    ItemAt(edits, selection, top);
  }

  lemma ReadListBox(r: Reading, items: seq<ListItem>, color: ColorType)
    requires r.read == []
    ensures var shown := ReadOn(r, ListBox(items, color)).read;
      && |shown| == |items|
      && forall i :: 0 <= i < |items| ==>
           shown[i] == ShownText(items[i].selected, items[i].selected || color != Transparent, items[i].edit)
  {
    hide ReadOn, ListOps;
    var (list, marked) := (ListOps(items, color), ReadOne(r, BeginMarked));
    if list == [] {
      ReadNothing(r);
      ReadListOps(marked, items, color);
      ReadNothing(marked);
    } else {
      ReadEnclosed(r, BeginMarked, Quoted(CLIP_TO_RECT + list), EndMarked);
      ReadEnclosed(marked, Save, CLIP_TO_RECT + list, Restore);
      ReadConcat(marked, CLIP_TO_RECT, list);
      ReadNoText(marked, CLIP_TO_RECT);
      ReadPlain(marked, CLIP_TO_RECT);
      ReadListOps(ReadOn(marked, CLIP_TO_RECT), items, color);
    }
  }

  lemma ItemAt(edits: seq<seq<EditStream.Op>>, selection: seq<int>, top: nat)
    requires top <= |edits|
    ensures var items := Items(edits, selection, top, |edits|);
      |items| == |edits| - top
      && forall i :: 0 <= i < |items| ==>
           (items[i].selected <==> top + i in selection) && items[i].edit == edits[top + i]
  {
    var items := Items(edits, selection, top, |edits|);
    forall i | 0 <= i < |items|
      ensures (items[i].selected <==> top + i in selection) && items[i].edit == edits[top + i]
    {
      assert items[i] == ListItem(Selected(selection, top + i), edits[top + i]);
    }
  }

  // ---------- Paths ----------

  /** The settings and path operators since the path before, or since a scope opened or closed, and what ends them. */
  datatype Drawn = Drawn(made: seq<Op>, paint: Op)

  datatype Drawing = Drawing(current: seq<Op>, done: seq<Drawn>)

  const NOTHING_DRAWN := Drawing([], [])

  predicate IsMade(op: Op) {
    op.Color? || op.LineState? || op.Rect? || op.MoveTo? || op.LineTo? || op.ClipPath?
  }

  function DrawOne(d: Drawing, op: Op): Drawing {
    if IsMade(op) then d.(current := d.current + [op])
    else
      match op
      case Fill => Drawing([], d.done + [Drawn(d.current, op)])
      case FillEvenOdd => Drawing([], d.done + [Drawn(d.current, op)])
      case Stroke => Drawing([], d.done + [Drawn(d.current, op)])
      case EndPath => Drawing([], d.done + [Drawn(d.current, op)])
      case Text(_) => d
      case Do(_) => d
      case ConcatMatrix => d
      case _ => d.(current := [])
  }

  function DrawOn(d: Drawing, ops: seq<Op>): Drawing
    decreases |ops|
  {
    if ops == [] then d else DrawOn(DrawOne(d, ops[0]), ops[1..])
  }

  function Paths(ops: seq<Op>): seq<Drawn> { DrawOn(NOTHING_DRAWN, ops).done }

  lemma {:induction false} DrawConcat(d: Drawing, a: seq<Op>, b: seq<Op>)
    ensures DrawOn(d, a + b) == DrawOn(DrawOn(d, a), b)
    decreases |a|
  {
    if a == [] {
      assert a + b == b;
    } else {
      assert (a + b)[1..] == a[1..] + b;
      DrawConcat(DrawOne(d, a[0]), a[1..], b);
    }
  }

  lemma DrawSingle(d: Drawing, op: Op)
    ensures DrawOn(d, [op]) == DrawOne(d, op)
  {
    assert [op][1..] == [];
  }

  lemma {:induction false} DrawMade(d: Drawing, ops: seq<Op>)
    requires forall i :: 0 <= i < |ops| ==> IsMade(ops[i])
    ensures DrawOn(d, ops) == d.(current := d.current + ops)
    decreases |ops|
  {
    if ops != [] {
      DrawMade(DrawOne(d, ops[0]), ops[1..]);
      assert d.current + [ops[0]] + ops[1..] == d.current + ops;
    } else {
      assert d.current + ops == d.current;
    }
  }

  /** One path, made and ended. */
  lemma DrawPath(d: Drawing, made: seq<Op>, paint: Op)
    requires forall i :: 0 <= i < |made| ==> IsMade(made[i])
    requires paint.Fill? || paint.FillEvenOdd? || paint.Stroke? || paint.EndPath?
    ensures DrawOn(d, made + [paint]) == Drawing([], d.done + [Drawn(d.current + made, paint)])
  {
    DrawMade(d, made);
    DrawConcat(d, made, [paint]);
    DrawSingle(d.(current := d.current + made), paint);
  }

  /** Scopes start anew. */
  lemma DrawQuoted(d: Drawing, body: seq<Op>)
    ensures DrawOn(d, Quoted(body)) == DrawOn(d.(current := []), body).(current := [])
  {
    hide DrawOn;
    DrawConcat(d, [Save] + body, [Restore]);
    DrawConcat(d, [Save], body);
    DrawSingle(d, Save);
    DrawSingle(DrawOn(d.(current := []), body), Restore);
  }

  /** The path a colour makes visible: none without a colour. */
  function ColoredPath(c: ColorType, made: seq<Op>, paint: Op): seq<Drawn> {
    if c == Transparent then [] else [Drawn([Color] + made, paint)]
  }

  lemma DrawPainted(d: Drawing, c: ColorType, settings: seq<Op>, path: seq<Op>, paint: Op)
    requires d.current == [] && forall i :: 0 <= i < |settings| ==> IsMade(settings[i])
    requires forall i :: 0 <= i < |path| ==> IsMade(path[i])
    requires paint.Fill? || paint.FillEvenOdd? || paint.Stroke?
    ensures DrawOn(d, Painted(c, settings, path, paint)) == Drawing([], d.done + ColoredPath(c, settings + path, paint))
  {
    if c == Transparent {
      assert d.done + [] == d.done;
    } else {
      hide DrawOn;
      Regroup([Color] + settings, path, [paint]);
      Regroup([Color], settings, path);
      DrawPath(d, [Color] + (settings + path), paint);
      assert [] + ([Color] + (settings + path)) == [Color] + (settings + path);
    }
  }

  /** The polygon of one half of a three-dimensional border. */
  const HALF: seq<Op> := [MoveTo, LineTo, LineTo, LineTo, LineTo, LineTo]

  /** What a border of each style paints: a ring between two rectangles; a dashed outline; a line; two polygons and a
      ring. A colour that is none paints nothing, and no border without width. */
  function BorderPaths(width: real, style: BorderStyle, color: ColorType, leftTop: ColorType, rightBottom: ColorType)
    : seq<Drawn>
  {
    if width <= 0.0 then []
    else match style
      case Solid => ColoredPath(color, [Rect, Rect], FillEvenOdd)
      case Dash => ColoredPath(color, [LineState, LineState, MoveTo, LineTo, LineTo, LineTo, LineTo], Stroke)
      case Underline => ColoredPath(color, [LineState, MoveTo, LineTo], Stroke)
      case _ =>
        ColoredPath(leftTop, HALF, Fill) + ColoredPath(rightBottom, HALF, Fill) + ColoredPath(color, [Rect, Rect], FillEvenOdd)
  }

  lemma DrawHalves(d: Drawing, color: ColorType, leftTop: ColorType, rightBottom: ColorType)
    requires d.current == []
    ensures DrawOn(d, BorderBody(Beveled, color, leftTop, rightBottom))
         == Drawing([], d.done + (ColoredPath(leftTop, HALF, Fill) + ColoredPath(rightBottom, HALF, Fill)
                                  + ColoredPath(color, [Rect, Rect], FillEvenOdd)))
  {
    hide DrawOn, Painted, ColoredPath;
    var (x, y, z) := (Painted(leftTop, [], HALF_BORDER, Fill), Painted(rightBottom, [], HALF_BORDER, Fill),
                      Painted(color, [], [Rect, Rect], FillEvenOdd));
    assert [] + HALF_BORDER == HALF && [] + [Rect, Rect] == [Rect, Rect];
    var (p, q, r) := (ColoredPath(leftTop, HALF, Fill), ColoredPath(rightBottom, HALF, Fill),
                      ColoredPath(color, [Rect, Rect], FillEvenOdd));
    DrawPainted(d, leftTop, [], HALF_BORDER, Fill);
    DrawPainted(Drawing([], d.done + p), rightBottom, [], HALF_BORDER, Fill);
    DrawPainted(Drawing([], d.done + p + q), color, [], [Rect, Rect], FillEvenOdd);
    DrawConcat(d, x + y, z);
    DrawConcat(d, x, y);
    Regroup(d.done, p, q);
    Regroup(d.done, p + q, r);
  }

  lemma DrawBorder(d: Drawing, width: real, style: BorderStyle, color: ColorType, leftTop: ColorType,
                   rightBottom: ColorType)
    requires d.current == []
    ensures DrawOn(d, Border(width, style, color, leftTop, rightBottom))
         == Drawing([], d.done + BorderPaths(width, style, color, leftTop, rightBottom))
  {
    if width > 0.0 {
      DrawQuoted(d, BorderBody(style, color, leftTop, rightBottom));
      DrawHalves(d, color, leftTop, rightBottom);
      assert [] + [Rect, Rect] == [Rect, Rect];
      assert [LineState, LineState] + [MoveTo, LineTo, LineTo, LineTo, LineTo]
          == [LineState, LineState, MoveTo, LineTo, LineTo, LineTo, LineTo];
      assert [LineState] + [MoveTo, LineTo] == [LineState, MoveTo, LineTo];
      DrawPainted(d, color, [], [Rect, Rect], FillEvenOdd);
      DrawPainted(d, color, [LineState, LineState], [MoveTo, LineTo, LineTo, LineTo, LineTo], Stroke);
      DrawPainted(d, color, [LineState], [MoveTo, LineTo], Stroke);
      hide DrawOn, Painted, ColoredPath;
    } else {
      assert d.done + [] == d.done;
    }
  }

  /** What the border of a field paints. The two halves of a three-dimensional border are always painted, whatever the
      colours. */
  function LookPaths(look: Look): seq<Drawn> {
    if look.width <= 0.0 then []
    else match look.style
      case Solid => ColoredPath(look.border, [Rect, Rect], FillEvenOdd)
      case Dash => ColoredPath(look.border, [LineState, LineState, MoveTo, LineTo, LineTo, LineTo, LineTo], Stroke)
      case Underline => ColoredPath(look.border, [LineState, MoveTo, LineTo], Stroke)
      case _ =>
        [Drawn([Color] + HALF, Fill)] + [Drawn([Color] + HALF, Fill)] + ColoredPath(look.border, [Rect, Rect], FillEvenOdd)
  }

  lemma DrawLookBorder(d: Drawing, look: Look)
    requires d.current == []
    ensures DrawOn(d, LookBorder(look)) == Drawing([], d.done + LookPaths(look))
  {
    DrawBorder(d, look.width * 2.0, Beveled, look.border, Gray, Divided(look.fill));
    DrawBorder(d, look.width * 2.0, Inset, look.border, Gray, Gray);
    DrawBorder(d, look.width, look.style, look.border, Transparent, Transparent);
    hide DrawOn, Border;
  }

  /** Every field paints its background as one rectangle, when it has one, and then the border of its style. */
  lemma BackdropPaths(look: Look)
    ensures DrawOn(NOTHING_DRAWN, Backdrop(look)).current == []
    ensures Paths(Backdrop(look)) == ColoredPath(look.fill, [Rect], Fill) + LookPaths(look)
  {
    hide DrawOn, RectFill, LookBorder, LookPaths, ColoredPath;
    DrawBackground(look.fill);
    DrawLookBorder(Drawing([], ColoredPath(look.fill, [Rect], Fill)), look);
    DrawConcat(NOTHING_DRAWN, RectFill(look.fill), LookBorder(look));
  }

  lemma DrawBackground(fill: ColorType)
    ensures DrawOn(NOTHING_DRAWN, RectFill(fill)) == Drawing([], ColoredPath(fill, [Rect], Fill))
  {
    if fill != Transparent {
      DrawQuoted(NOTHING_DRAWN, [Color] + ([Rect] + [Fill]));
      DrawPainted(NOTHING_DRAWN, fill, [], [Rect], Fill);
      hide DrawOn;
      assert [Color] + [] + ([Rect] + [Fill]) == [Color] + ([Rect] + [Fill]) && [] + [Rect] == [Rect];
    }
  }

  /** The separators of a comb: one line between each two cells. */
  lemma {:induction false} DrawCombLines(d: Drawing, cells: int)
    ensures var after := DrawOn(d, CombLines(cells));
      && after.current == (if cells <= 1 then d.current else [])
      && |after.done| == |d.done| + (if cells <= 1 then 0 else cells - 1) && after.done[..|d.done|] == d.done
      && forall i :: |d.done| <= i < |after.done| ==>
           after.done[i] == Drawn((if i == |d.done| then d.current else []) + [MoveTo, LineTo], Stroke)
    decreases cells
  {
    if cells > 1 {
      DrawCombLines(d, cells - 1);
      var before := DrawOn(d, CombLines(cells - 1));
      DrawConcat(d, CombLines(cells - 1), [MoveTo, LineTo, Stroke]);
      DrawPath(before, [MoveTo, LineTo], Stroke);
      assert [MoveTo, LineTo] + [Stroke] == [MoveTo, LineTo, Stroke];
      hide DrawOn;
    }
  }

  /** A comb of n cells has n - 1 separators: lines of two points, stroked in the border's colour; only for a solid or
      dashed border that has a colour. */
  lemma CombPaths(d: Drawing, comb: bool, style: BorderStyle, color: ColorType, cells: int)
    requires d.current == []
    ensures var after := DrawOn(d, Comb(comb, style, color, cells));
      && after.current == [] && |d.done| <= |after.done| && after.done[..|d.done|] == d.done
      && |after.done| - |d.done|
         == (if comb && (style.Solid? || style.Dash?) && color != Transparent && cells > 1 then cells - 1 else 0)
      && forall i :: |d.done| <= i < |after.done| ==>
           && after.done[i].paint == Stroke && |after.done[i].made| >= 2
           && after.done[i].made[|after.done[i].made| - 2..] == [MoveTo, LineTo]
           && (i == |d.done| ==> Color in after.done[i].made)
  {
    if comb && (style.Solid? || style.Dash?) && color != Transparent {
      var settings := [LineState] + ColorOps(color) + (if style.Solid? then [LineState, LineState] else [LineState]);
      var made := d.(current := [] + settings);
      DrawQuoted(d, settings + CombLines(cells));
      DrawMade(d, settings);
      DrawConcat(d, settings, CombLines(cells));
      DrawCombLines(made, cells);
      assert settings[1] == Color;
      hide DrawOn;
      var after := DrawOn(made, CombLines(cells));
      if cells > 1 {
        assert after.done[|d.done|].made == made.current + [MoveTo, LineTo] && made.current[1] == Color;
      }
    }
  }

  const CLIP := Drawn([Rect, ClipPath], EndPath)

  lemma DrawTextBlock(d: Drawing, edit: seq<EditStream.Op>, color: ColorType)
    requires d.current == []
    ensures DrawOn(d, TextBlock(ColorOps(color) + Texts(edit))) == d
  {
    DrawScoped(d, BeginText, ColorOps(color) + Texts(edit), EndText);
    DrawConcat(d, ColorOps(color), Texts(edit));
    DrawMade(d, ColorOps(color));
    DrawTexts(d.(current := [] + ColorOps(color)), Texts(edit));
    hide DrawOn;
  }

  lemma DrawClip(d: Drawing, overflows: bool)
    requires d.current == []
    ensures DrawOn(d, if overflows then CLIP_TO_RECT else []) == Drawing([], d.done + if overflows then [CLIP] else [])
  {
    DrawNothing(d);
    DrawPath(d, [Rect, ClipPath], EndPath);
    hide DrawOn;
    assert [Rect, ClipPath] + [EndPath] == CLIP_TO_RECT && [] + [Rect, ClipPath] == [Rect, ClipPath];
  }

  /** The text of a field is clipped exactly when it is too large for it. */
  lemma FieldTextPaths(d: Drawing, edit: seq<EditStream.Op>, overflows: bool, color: ColorType)
    requires d.current == []
    ensures DrawOn(d, FieldText(edit, overflows, color))
         == Drawing([], d.done + (if edit != [] && overflows then [CLIP] else []))
  {
    if edit == [] {
      DrawNothing(d);
    } else {
      var (clip, text) := (if overflows then CLIP_TO_RECT else [], TextBlock(ColorOps(color) + Texts(edit)));
      var clipped := Drawing([], d.done + (if overflows then [CLIP] else []));
      hide DrawOn, TextBlock, Quoted, Texts, ColorOps;
      DrawScoped(d, BeginMarked, Quoted(clip + text), EndMarked);
      DrawQuoted(d, clip + text);
      DrawConcat(d, clip, text);
      DrawClip(d, overflows);
      DrawTextBlock(clipped, edit, color);
    }
  }

  lemma DrawScoped(d: Drawing, first: Op, body: seq<Op>, last: Op)
    requires (first.BeginMarked? && last.EndMarked?) || (first.BeginText? && last.EndText?)
    ensures DrawOn(d, [first] + body + [last]) == DrawOn(d.(current := []), body).(current := [])
  {
    hide DrawOn;
    DrawConcat(d, [first] + body, [last]);
    DrawConcat(d, [first], body);
    DrawSingle(d, first);
    DrawSingle(DrawOn(d.(current := []), body), last);
  }

  lemma {:induction false} DrawTexts(d: Drawing, texts: seq<Op>)
    requires forall i :: 0 <= i < |texts| ==> texts[i].Text?
    ensures DrawOn(d, texts) == d
    decreases |texts|
  {
    if texts != [] { DrawTexts(d, texts[1..]); }
  }

  /** A text field's stream makes the paths of its backdrop, then its separators, and then the clip of its text. */
  lemma TextFieldPaths(look: Look, edit: seq<EditStream.Op>, overflows: bool, color: ColorType, comb: bool, cells: int)
    ensures var (back, all) := (Paths(Backdrop(look)), Paths(TextField(look, edit, overflows, color, comb, cells)));
      var clips := if edit != [] && overflows then 1 else 0;
      var separators := |all| - |back| - clips;
      && separators == (if comb && (look.style.Solid? || look.style.Dash?) && look.border != Transparent && cells > 1
                        then cells - 1 else 0)
      && all[..|back|] == back && (clips == 1 ==> all[|all| - 1] == CLIP)
      && forall i :: |back| <= i < |back| + separators ==>
           all[i].paint == Stroke && |all[i].made| >= 2 && all[i].made[|all[i].made| - 2..] == [MoveTo, LineTo]
  {
    var (lines, text) := (Comb(comb, look.style, look.border, cells), FieldText(edit, overflows, color));
    hide Comb, FieldText, DrawOn, Backdrop;
    BackdropPaths(look);
    DrawConcat(NOTHING_DRAWN, Backdrop(look) + lines, text);
    DrawConcat(NOTHING_DRAWN, Backdrop(look), lines);
    var back := DrawOn(NOTHING_DRAWN, Backdrop(look));
    CombPaths(back, comb, look.style, look.border, cells);
    FieldTextPaths(DrawOn(back, lines), edit, overflows, color);
  }

  /** A path filled in a colour, between q and Q. */
  lemma DrawFilled(d: Drawing, path: seq<Op>)
    requires d.current == [] && forall i :: 0 <= i < |path| ==> IsMade(path[i])
    ensures DrawOn(d, Quoted([Color] + (path + [Fill]))) == Drawing([], d.done + [Drawn([Color] + path, Fill)])
  {
    DrawQuoted(d, [Color] + (path + [Fill]));
    Regroup([Color], path, [Fill]);
    DrawPath(d, [Color] + path, Fill);
    assert [] + ([Color] + path) == [Color] + path;
    hide DrawOn;
  }

  const FACE := Drawn([Color] + [Rect], Fill)
  const RING := Drawn([Color] + [Rect, Rect], FillEvenOdd)
  const ARROW := Drawn([Color] + [MoveTo, LineTo, LineTo, LineTo], Fill)

  lemma DrawButtonBorder(d: Drawing)
    requires d.current == []
    ensures DrawOn(d, Quoted(Border(2.0, Beveled, Gray, Gray, Gray)))
         == Drawing([], d.done + [Drawn([Color] + HALF, Fill), Drawn([Color] + HALF, Fill), RING])
  {
    hide DrawOn;
    DrawQuoted(d, Border(2.0, Beveled, Gray, Gray, Gray));
    DrawBorder(d, 2.0, Beveled, Gray, Gray, Gray);
    hide Border;
  }

  lemma DrawThree(d: Drawing, a: seq<Op>, b: seq<Op>, c: seq<Op>)
    ensures DrawOn(d, a + b + c) == DrawOn(DrawOn(DrawOn(d, a), b), c)
  {
    hide DrawOn;
    DrawConcat(d, a + b, c);
    DrawConcat(d, a, b);
  }

  const BUTTON: seq<Drawn> := [FACE] + [Drawn([Color] + HALF, Fill), Drawn([Color] + HALF, Fill), RING]

  lemma DrawParts(large: bool)
    ensures DrawOn(NOTHING_DRAWN, DropButton(false, large))
         == DrawOn(DrawOn(DrawOn(NOTHING_DRAWN, Quoted([Color] + ([Rect] + [Fill]))),
                          Quoted(Border(2.0, Beveled, Gray, Gray, Gray))),
                   if large then Quoted([Color] + ([MoveTo, LineTo, LineTo, LineTo] + [Fill])) else [])
  {
    hide DrawOn, Quoted, Border;
    DrawThree(NOTHING_DRAWN, Quoted([Color] + ([Rect] + [Fill])), Quoted(Border(2.0, Beveled, Gray, Gray, Gray)),
              if large then Quoted([Color] + ([MoveTo, LineTo, LineTo, LineTo] + [Fill])) else []);
  }

  lemma DrawFace()
    ensures DrawOn(NOTHING_DRAWN, Quoted([Color] + ([Rect] + [Fill]))) == Drawing([], [FACE])
  {
    hide DrawOn;
    DrawFilled(NOTHING_DRAWN, [Rect]);
  }

  lemma DrawFaceBorder()
    ensures DrawOn(Drawing([], [FACE]), Quoted(Border(2.0, Beveled, Gray, Gray, Gray))) == Drawing([], BUTTON)
  {
    hide DrawOn, Border;
    DrawButtonBorder(Drawing([], [FACE]));
  }

  lemma DrawArrow(large: bool)
    ensures DrawOn(Drawing([], BUTTON), if large then Quoted([Color] + ([MoveTo, LineTo, LineTo, LineTo] + [Fill])) else [])
         == Drawing([], BUTTON + (if large then [ARROW] else []))
  {
    DrawNothing(Drawing([], BUTTON));
    hide DrawOn;
    DrawFilled(Drawing([], BUTTON), [MoveTo, LineTo, LineTo, LineTo]);
  }

  /** The drop button: a filled face, a bevelled border of width two, and, when there is room, a filled triangle. */
  lemma DropButtonPaths(empty: bool, large: bool)
    ensures Paths(DropButton(empty, large)) == if empty then [] else BUTTON + (if large then [ARROW] else [])
  {
    if empty {
      DrawNothing(NOTHING_DRAWN);
    } else {
      hide DrawOn, DropButton, Quoted, Border;
      DrawParts(large);
      DrawFace();
      DrawFaceBorder();
      DrawArrow(large);
    }
  }

  lemma DrawNothing(d: Drawing)
    ensures DrawOn(d, []) == d && d.done + [] == d.done
  {
  }

  // ---------- What a push button shows ----------

  /** An XObject drawn, and how many matrices and clips of the stream it is drawn under. */
  datatype Use = Use(alias: string, matrices: nat, clips: nat)

  /** The matrices and clips in force, and those to come back to at each Q. */
  datatype Levels = Level(matrices: nat, clips: nat, below: Levels) | Outside

  datatype Usage = Usage(now: Levels, uses: seq<Use>)

  const NOTHING_USED := Usage(Level(0, 0, Outside), [])

  function UseOne(u: Usage, op: Op): Usage {
    if u.now.Outside? then u
    else
      match op
      case Save => u.(now := Level(u.now.matrices, u.now.clips, u.now))
      case Restore => u.(now := u.now.below)
      case ConcatMatrix => u.(now := u.now.(matrices := u.now.matrices + 1))
      case ClipPath => u.(now := u.now.(clips := u.now.clips + 1))
      case Do(alias) => u.(uses := u.uses + [Use(alias, u.now.matrices, u.now.clips)])
      case _ => u
  }

  function UseOn(u: Usage, ops: seq<Op>): Usage
    decreases |ops|
  {
    if ops == [] then u else UseOn(UseOne(u, ops[0]), ops[1..])
  }

  function Uses(ops: seq<Op>): seq<Use> { UseOn(NOTHING_USED, ops).uses }

  lemma {:induction false} UseConcat(u: Usage, a: seq<Op>, b: seq<Op>)
    ensures UseOn(u, a + b) == UseOn(UseOn(u, a), b)
    decreases |a|
  {
    if a == [] {
      assert a + b == b;
    } else {
      assert (a + b)[1..] == a[1..] + b;
      UseConcat(UseOne(u, a[0]), a[1..], b);
    }
  }

  lemma UseSingle(u: Usage, op: Op)
    ensures UseOn(u, [op]) == UseOne(u, op)
  {
    assert [op][1..] == [];
  }

  /** What is between q and Q is over after it, but for what was drawn. */
  lemma UseQuoted(u: Usage, body: seq<Op>)
    requires u.now.Level?
    requires var after := UseOn(UseOne(u, Save), body); after.now.Level? && after.now.below == u.now
    ensures UseOn(u, Quoted(body)) == Usage(u.now, UseOn(UseOne(u, Save), body).uses)
  {
    hide UseOn;
    UseConcat(u, [Save] + body, [Restore]);
    UseConcat(u, [Save], body);
    UseSingle(u, Save);
    UseSingle(UseOn(UseOne(u, Save), body), Restore);
  }

  function Clipped(u: Usage): Usage { if u.now.Level? then u.(now := u.now.(clips := u.now.clips + 1)) else u }

  lemma UseClip(u: Usage)
    ensures UseOn(u, CLIP_TO_RECT) == Clipped(u)
  {
    hide UseOn;
    UseSingle(u, Rect);
    UseSingle(u, ClipPath);
    UseSingle(Clipped(u), EndPath);
    UseConcat(u, [Rect] + [ClipPath], [EndPath]);
    UseConcat(u, [Rect], [ClipPath]);
    assert CLIP_TO_RECT == [Rect] + [ClipPath] + [EndPath];
  }

  function Moved(u: Usage): Usage { if u.now.Level? then u.(now := u.now.(matrices := u.now.matrices + 2)) else u }

  lemma UseMoves(u: Usage)
    ensures UseOn(u, [ConcatMatrix] + [ConcatMatrix]) == Moved(u)
  {
    hide UseOn;
    UseSingle(u, ConcatMatrix);
    UseSingle(UseOne(u, ConcatMatrix), ConcatMatrix);
    UseConcat(u, [ConcatMatrix], [ConcatMatrix]);
  }

  lemma {:induction false} UseNothing(u: Usage, ops: seq<Op>)
    requires forall i :: 0 <= i < |ops| ==> ops[i].Text? || ops[i].Color? || ops[i].LineState? || ops[i].BeginText? || ops[i].EndText?
    ensures UseOn(u, ops) == u
    decreases |ops|
  {
    if ops != [] { UseNothing(u, ops[1..]); }
  }

  lemma IconParts(alias: string)
    ensures IconBody(alias) == CLIP_TO_RECT + ([ConcatMatrix] + [ConcatMatrix]) + [Color, Color, LineState] + [Do(alias)]
  {
  }

  /** The icon is drawn once, under its own clip and its two matrices. */
  lemma UseIconBody(u: Usage, alias: string)
    requires u.now.Level?
    ensures UseOn(u, IconBody(alias)) == UseOne(Moved(Clipped(u)), Do(alias))
  {
    var (moves, settings) := ([ConcatMatrix] + [ConcatMatrix], [Color, Color, LineState]);
    UseNothing(Moved(Clipped(u)), settings);
    IconParts(alias);
    hide UseOn, IconBody, UseOne, Moved, Clipped;
    UseClip(u);
    UseMoves(Clipped(u));
    UseSingle(Moved(Clipped(u)), Do(alias));
    UseConcat(u, CLIP_TO_RECT + moves + settings, [Do(alias)]);
    UseConcat(u, CLIP_TO_RECT + moves, settings);
    UseConcat(u, CLIP_TO_RECT, moves);
  }

  lemma UseIcon(u: Usage, icon: Option<string>)
    requires u.now.Level?
    ensures UseOn(u, Icon(icon))
         == u.(uses := u.uses + if icon.Some? then [Use(icon.value, u.now.matrices + 2, u.now.clips + 1)] else [])
  {
    if icon.Some? {
      hide UseOn, IconBody;
      UseIconBody(UseOne(u, Save), icon.value);
      UseQuoted(u, IconBody(icon.value));
    } else {
      assert u.uses + [] == u.uses;
    }
  }

  /** Without NUL bytes a push button draws its icon once, if it has one, under the clips of the button and of the icon
      and its two matrices, and shows its label: one text object in the label's colour with exactly the operators of
      its edit. */
  lemma PushButtonShows(icon: Option<string>, edit: seq<EditStream.Op>, color: ColorType)
    requires NoNulGiven(icon, edit)
    ensures Uses(PushButton(icon, edit, color)) == if icon.Some? then [Use(icon.value, 2, 2)] else []
    ensures TextObjects(PushButton(icon, edit, color))
         == if edit == [] then [] else [ShownText(false, color != Transparent, edit)]
  {
    var (i, l) := (Icon(icon), Label(edit, color));
    NulFreeIff(icon, edit, color);
    NulFreeUncut(i + l);
    hide UpToNul, NulFree, NoNulGiven;
    PushButtonUses(icon, edit, color);
    PushButtonReads(icon, edit, color);
    if i + l == [] {
      IconIsEmptyIff(icon, edit, color);
      ReadNothing(NOTHING_READ);
      assert Uses([]) == [];
    }
  }

  lemma IconIsEmptyIff(icon: Option<string>, edit: seq<EditStream.Op>, color: ColorType)
    ensures (Icon(icon) == [] <==> icon.None?) && (Label(edit, color) == [] <==> edit == [])
  {
  }

  lemma PushButtonUses(icon: Option<string>, edit: seq<EditStream.Op>, color: ColorType)
    ensures Uses(Quoted(CLIP_TO_RECT + (Icon(icon) + Label(edit, color))))
         == if icon.Some? then [Use(icon.value, 2, 2)] else []
  {
    var (i, l) := (Icon(icon), Label(edit, color));
    var inside := UseOne(NOTHING_USED, Save);
    UseClip(inside);
    UseIcon(Clipped(inside), icon);
    LabelUsesNothing(UseOn(Clipped(inside), i), edit, color);
    hide UseOn, Icon, Label;
    UseConcat(inside, CLIP_TO_RECT, i + l);
    UseConcat(Clipped(inside), i, l);
    UseQuoted(NOTHING_USED, CLIP_TO_RECT + (i + l));
  }

  lemma LabelUsesNothing(u: Usage, edit: seq<EditStream.Op>, color: ColorType)
    ensures UseOn(u, Label(edit, color)) == u
  {
    UseNothing(u, Label(edit, color));
  }

  lemma PushButtonReads(icon: Option<string>, edit: seq<EditStream.Op>, color: ColorType)
    ensures TextObjects(Quoted(CLIP_TO_RECT + (Icon(icon) + Label(edit, color))))
         == if edit == [] then [] else [ShownText(false, color != Transparent, edit)]
  {
    var (i, l) := (Icon(icon), Label(edit, color));
    var front := CLIP_TO_RECT + i;
    Regroup(CLIP_TO_RECT, i, l);
    ReadEnclosed(NOTHING_READ, Save, front + l, Restore);
    ReadConcat(NOTHING_READ, front, l);
    assert NoText(front) && forall k :: 0 <= k < |front| ==> !front[k].Fill?;
    ReadNoText(NOTHING_READ, front);
    ReadPlain(NOTHING_READ, front);
    if edit != [] { ReadTextBlock(ReadOn(NOTHING_READ, front), color, edit); }
    hide Texts;
  }
}
