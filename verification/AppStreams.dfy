/** The appearance streams of form fields: how they are written, and that they are well-formed content. */
module AppStreams {
  import opened Basics
  import EditStream
  import opened ContentGrammar
  import opened Sequences

  datatype ColorType = Transparent | Gray | RGB | CMYK

  datatype BorderStyle = Solid | Dash | Beveled | Inset | Underline

  // ---------- What the streams should be ----------

  function ColorOps(c: ColorType): seq<Op> {
    if c == Transparent then [] else [Color]
  }

  function Texts(edit: seq<EditStream.Op>): (ops: seq<Op>)
    ensures |ops| == |edit| && forall i :: 0 <= i < |ops| ==> ops[i] == Text(edit[i])
  {
    seq(|edit|, i requires 0 <= i < |edit| => Text(edit[i]))
  }

  const CLIP_TO_RECT: seq<Op> := [Rect, ClipPath, EndPath]

  function RectFill(c: ColorType): seq<Op> {
    if ColorOps(c) == [] then [] else Quoted(ColorOps(c) + ([Rect] + [Fill]))
  }

  /** Six corners of one half of a three-dimensional border. */
  const HALF_BORDER: seq<Op> := [MoveTo, LineTo, LineTo, LineTo, LineTo, LineTo]

  function Painted(c: ColorType, settings: seq<Op>, path: seq<Op>, paint: Op): seq<Op> {
    if ColorOps(c) == [] then [] else ColorOps(c) + settings + (path + [paint])
  }

  function BorderBody(style: BorderStyle, color: ColorType, leftTop: ColorType, rightBottom: ColorType): seq<Op> {
    match style
    case Solid => Painted(color, [], [Rect, Rect], FillEvenOdd)
    case Dash => Painted(color, [LineState, LineState], [MoveTo, LineTo, LineTo, LineTo, LineTo], Stroke)
    case Underline => Painted(color, [LineState], [MoveTo, LineTo], Stroke)
    case _ =>
      Painted(leftTop, [], HALF_BORDER, Fill) + Painted(rightBottom, [], HALF_BORDER, Fill)
      + Painted(color, [], [Rect, Rect], FillEvenOdd)
  }

  function Border(width: real, style: BorderStyle, color: ColorType, leftTop: ColorType, rightBottom: ColorType): seq<Op> {
    if width > 0.0 then Quoted(BorderBody(style, color, leftTop, rightBottom)) else []
  }

  /** What a widget says of its background and border. */
  datatype Look = Look(fill: ColorType, border: ColorType, width: real, style: BorderStyle)

  /** The kind of a colour divided by a number: no colour becomes a grey given as RGB. */
  function Divided(c: ColorType): ColorType { if c == Transparent then RGB else c }

  /** The border of the widget: a three-dimensional style takes twice the width, and two colours of its own. */
  function LookBorder(look: Look): seq<Op> {
    match look.style
    case Beveled => Border(look.width * 2.0, Beveled, look.border, Gray, Divided(look.fill))
    case Inset => Border(look.width * 2.0, Inset, look.border, Gray, Gray)
    case style => Border(look.width, style, look.border, Transparent, Transparent)
  }

  /** The background and border every field starts with. */
  function Backdrop(look: Look): seq<Op> { RectFill(look.fill) + LookBorder(look) }

  /** The drop button: a face, a bevelled border and, on a button that is large enough, an arrow. */
  function DropButton(empty: bool, large: bool): seq<Op> {
    if empty then []
    else
      Quoted([Color] + ([Rect] + [Fill])) + Quoted(Border(2.0, Beveled, Gray, Gray, Gray))
      + (if large then Quoted([Color] + ([MoveTo, LineTo, LineTo, LineTo] + [Fill])) else [])
  }

  /** The marked text of a combo box or text field, clipped to its rectangle when it is too large for it. */
  function FieldText(edit: seq<EditStream.Op>, overflows: bool, color: ColorType): seq<Op> {
    if edit == [] then []
    else
      MarkedContent(Quoted((if overflows then CLIP_TO_RECT else []) + TextBlock(ColorOps(color) + Texts(edit))))
  }

  datatype ListItem = ListItem(selected: bool, edit: seq<EditStream.Op>)

  function ListItemOps(item: ListItem, color: ColorType): seq<Op> {
    if item.selected then Quoted([Color] + ([Rect] + [Fill])) + TextBlock([Color] + Texts(item.edit))
    else TextBlock(ColorOps(color) + Texts(item.edit))
  }

  function ListOps(items: seq<ListItem>, color: ColorType): seq<Op> {
    if items == [] then [] else ListOps(items[..|items| - 1], color) + ListItemOps(items[|items| - 1], color)
  }

  function ListBox(items: seq<ListItem>, color: ColorType): seq<Op> {
    var list := ListOps(items, color);
    if list == [] then [] else MarkedContent(Quoted(CLIP_TO_RECT + list))
  }

  /** One separator between each two of the comb's cells. */
  function CombLines(cells: int): seq<Op>
    decreases cells
  {
    if cells <= 1 then [] else CombLines(cells - 1) + [MoveTo, LineTo, Stroke]
  }

  function Comb(comb: bool, style: BorderStyle, color: ColorType, cells: int): seq<Op> {
    if !comb || ColorOps(color) == [] then []
    else match style
      case Solid => Quoted([LineState] + ColorOps(color) + [LineState, LineState] + CombLines(cells))
      case Dash => Quoted([LineState] + ColorOps(color) + [LineState] + CombLines(cells))
      case _ => []
  }

  // ---------- Writing them ----------

  method GetRectFillAppStream(color: ColorType) returns (out: seq<Op>)
    ensures out == RectFill(color)
  {
    out := [];
    var sColor := ColorOps(color);
    if |sColor| > 0 {
      out := out + [Save];
      out := out + sColor + [Rect] + [Fill];
      out := out + [Restore];
    }
  }

  /** Sets the colour and paints one path in it, if it is a colour. */
  method PaintPath(stream: seq<Op>, c: ColorType, settings: seq<Op>, path: seq<Op>, paint: Op) returns (out: seq<Op>)
    ensures out == stream + Painted(c, settings, path, paint)
  {
    out := stream;
    var sColor := ColorOps(c);
    if |sColor| > 0 {
      out := out + sColor;
      out := out + settings;
      out := out + path + [paint];
      Regroup(stream, sColor, settings);
      Regroup(stream + sColor, settings, path);
      Regroup(stream, sColor + settings, path + [paint]);
      Regroup(stream + (sColor + settings), path, [paint]);
    }
  }

  /** The two halves and the outline of a bevelled or inset border. */
  method PaintHalves(stream: seq<Op>, color: ColorType, leftTop: ColorType, rightBottom: ColorType) returns (out: seq<Op>)
    ensures out == stream + BorderBody(Beveled, color, leftTop, rightBottom)
  {
    hide Painted, ColorOps;
    out := PaintPath(stream, leftTop, [], HALF_BORDER, Fill);
    out := PaintPath(out, rightBottom, [], HALF_BORDER, Fill);
    out := PaintPath(out, color, [], [Rect, Rect], FillEvenOdd);
    var (a, b, c) := (Painted(leftTop, [], HALF_BORDER, Fill), Painted(rightBottom, [], HALF_BORDER, Fill),
                      Painted(color, [], [Rect, Rect], FillEvenOdd));
    Regroup(stream, a, b);
    Regroup(stream, a + b, c);
  }

  method GetBorderAppStreamInternal(width: real, style: BorderStyle, color: ColorType, leftTop: ColorType,
                                    rightBottom: ColorType) returns (out: seq<Op>)
    ensures out == Border(width, style, color, leftTop, rightBottom)
  {
    hide Painted, ColorOps;
    out := [];
    if width > 0.0 {
      out := out + [Save];
      match style {
        case Solid =>
          out := PaintPath(out, color, [], [Rect, Rect], FillEvenOdd);
        case Dash =>
          out := PaintPath(out, color, [LineState, LineState], [MoveTo, LineTo, LineTo, LineTo, LineTo], Stroke);
        case Underline =>
          out := PaintPath(out, color, [LineState], [MoveTo, LineTo], Stroke);
        case _ =>
          out := PaintHalves(out, color, leftTop, rightBottom);
      }
      out := out + [Restore];
    }
  }

  method GetBackgroundAppStream(look: Look) returns (out: seq<Op>)
    ensures out == RectFill(look.fill)
  {
    out := [];
    if look.fill != Transparent {
      out := GetRectFillAppStream(look.fill);
    }
  }

  method GetBorderAppStream(look: Look) returns (out: seq<Op>)
    ensures out == LookBorder(look)
  {
    var (fBorderWidth, crLeftTop, crRightBottom) := (look.width, Transparent, Transparent);
    match look.style {
      case Beveled =>
        fBorderWidth := fBorderWidth * 2.0;
        crLeftTop := Gray;
        crRightBottom := Divided(look.fill);
      case Inset =>
        fBorderWidth := fBorderWidth * 2.0;
        crLeftTop := Gray;
        crRightBottom := Gray;
      case _ =>
    }
    out := GetBorderAppStreamInternal(fBorderWidth, look.style, look.border, crLeftTop, crRightBottom);
  }

  method GetDropButtonAppStream(empty: bool, large: bool) returns (out: seq<Op>)
    ensures out == DropButton(empty, large)
  {
    if empty {
      return [];
    }
    out := [Save];
    out := out + [Color] + [Rect, Fill];
    out := out + [Restore];
    assert out == Quoted([Color] + ([Rect] + [Fill]));
    ghost var face := out;
    out := out + [Save];
    var border := GetBorderAppStreamInternal(2.0, Beveled, Gray, Gray, Gray);
    out := out + border;
    out := out + [Restore];
    Regroup(face, [Save], border);
    Regroup(face, [Save] + border, [Restore]);
    if large {
      ghost var so := out;
      out := out + [Save];
      out := out + [Color] + [MoveTo] + [LineTo] + [LineTo] + [LineTo, Fill];
      out := out + [Restore];
      assert out == so + Quoted([Color] + ([MoveTo, LineTo, LineTo, LineTo] + [Fill]));
    }
  }

  lemma NestScopes(clip: seq<Op>, text: seq<Op>)
    ensures [BeginMarked] + [Save] + clip + [BeginText] + text + [EndText] + [Restore] + [EndMarked]
         == MarkedContent(Quoted(clip + TextBlock(text)))
  {
  }

  /** The part of SetAsComboBox and SetAsTextField that writes the text. */
  method WriteFieldText(edit: seq<EditStream.Op>, overflows: bool, color: ColorType) returns (body: seq<Op>)
    ensures body == FieldText(edit, overflows, color)
  {
    hide ColorOps, Texts, Quoted, MarkedContent, TextBlock;
    body := [];
    if |edit| > 0 {
      body := [BeginMarked];
      body := body + [Save];
      var clip := [];
      if overflows {
        clip := [Rect] + [ClipPath] + [EndPath];
        assert clip == CLIP_TO_RECT;
      }
      body := body + clip;
      body := body + [BeginText];
      body := body + (ColorOps(color) + Texts(edit));
      body := body + [EndText];
      body := body + [Restore];
      body := body + [EndMarked];
      NestScopes(clip, ColorOps(color) + Texts(edit));
    }
  }

  /** SetAsComboBox: background, border, text and drop button. */
  method SetAsComboBox(look: Look, edit: seq<EditStream.Op>, overflows: bool, color: ColorType,
                       buttonEmpty: bool, buttonLarge: bool) returns (contents: seq<Op>)
    ensures contents == Backdrop(look) + FieldText(edit, overflows, color) + DropButton(buttonEmpty, buttonLarge)
  {
    var sBody := WriteFieldText(edit, overflows, color);
    var button := GetDropButtonAppStream(buttonEmpty, buttonLarge);
    Regroup(Backdrop(look), sBody, button);
    sBody := sBody + button;
    var background := GetBackgroundAppStream(look);
    var border := GetBorderAppStream(look);
    contents := background + border + sBody;
  }

  /** One entry of a list box. */
  method WriteListItem(list: seq<Op>, item: ListItem, color: ColorType) returns (out: seq<Op>)
    ensures out == list + ListItemOps(item, color)
  {
    hide ColorOps, Texts, Quoted, TextBlock;
    out := list;
    if item.selected {
      out := out + [Save];
      out := out + ([Color] + ([Rect] + [Fill]));
      out := out + [Restore];
      AppendEnclosed(list, Save, [Color] + ([Rect] + [Fill]), Restore);
      ghost var filled := out;
      out := out + [BeginText];
      out := out + ([Color] + Texts(item.edit));
      out := out + [EndText];
      AppendEnclosed(filled, BeginText, [Color] + Texts(item.edit), EndText);
      Regroup(list, Quoted([Color] + ([Rect] + [Fill])), TextBlock([Color] + Texts(item.edit)));
    } else {
      out := out + [BeginText];
      out := out + (ColorOps(color) + Texts(item.edit));
      out := out + [EndText];
      AppendEnclosed(list, BeginText, ColorOps(color) + Texts(item.edit), EndText);
    }
  }

  lemma AppendEnclosed(a: seq<Op>, first: Op, body: seq<Op>, last: Op)
    ensures a + [first] + body + [last] == a + ([first] + body + [last])
    ensures first == Save && last == Restore ==> [first] + body + [last] == Quoted(body)
    ensures first == BeginText && last == EndText ==> [first] + body + [last] == TextBlock(body)
  {
  }

  predicate Selected(selection: seq<int>, i: int) {
    i in selection
  }

  /** The entries shown: all from the top visible one on. */
  function Items(edits: seq<seq<EditStream.Op>>, selection: seq<int>, top: nat, n: nat): (items: seq<ListItem>)
    requires top <= n <= |edits|
  {
    seq(n - top, i requires 0 <= i < n - top => ListItem(Selected(selection, top + i), edits[top + i]))
  }

  method IsSelected(selection: seq<int>, i: int) returns (bSelected: bool)
    ensures bSelected == Selected(selection, i)
  {
    bSelected := false;
    var j := 0;
    while j < |selection|
      invariant j <= |selection| && i !in selection[..j]
    {
      if selection[j] == i {
        return true;
      }
      j := j + 1;
    }
  }

  lemma ListOpsOfNone(edits: seq<seq<EditStream.Op>>, selection: seq<int>, top: nat, color: ColorType)
    ensures top <= |edits| ==> ListOps(Items(edits, selection, top, top), color) == []
    ensures ListOps([], color) == []
  {
  }

  lemma ItemsSnoc(edits: seq<seq<EditStream.Op>>, selection: seq<int>, top: nat, i: nat, color: ColorType)
    requires top <= i < |edits|
    ensures ListOps(Items(edits, selection, top, i + 1), color)
         == ListOps(Items(edits, selection, top, i), color)
            + ListItemOps(ListItem(Selected(selection, i), edits[i]), color)
  {
    var items := Items(edits, selection, top, i + 1);
    assert items[..|items| - 1] == Items(edits, selection, top, i);
    assert items[|items| - 1] == ListItem(Selected(selection, i), edits[i]);
  }

  /** SetAsListBox. The option texts are given as compiled by the edit control, one per option. */
  method SetAsListBox(look: Look, edits: seq<seq<EditStream.Op>>, selection: seq<int>,
                      top: nat, color: ColorType) returns (contents: seq<Op>)
    ensures contents == Backdrop(look)
              + ListBox(if top <= |edits| then Items(edits, selection, top, |edits|) else [], color)
  {
    hide ListItemOps, ListOps, Selected, Items;
    var sList := [];
    ListOpsOfNone(edits, selection, top, color);
    var i := top;
    while i < |edits|
      invariant top <= |edits| ==> top <= i <= |edits| && sList == ListOps(Items(edits, selection, top, i), color)
      invariant top > |edits| ==> sList == []
    {
      var bSelected := IsSelected(selection, i);
      ItemsSnoc(edits, selection, top, i, color);
      sList := WriteListItem(sList, ListItem(bSelected, edits[i]), color);
      i := i + 1;
    }
    var sBody := [];
    if |sList| > 0 {
      sBody := [BeginMarked];
      sBody := sBody + [Save];
      sBody := sBody + (CLIP_TO_RECT + sList);
      sBody := sBody + [Restore];
      sBody := sBody + [EndMarked];
      AppendEnclosed([BeginMarked], Save, CLIP_TO_RECT + sList, Restore);
    }
    var background := GetBackgroundAppStream(look);
    var border := GetBorderAppStream(look);
    contents := background + border + sBody;
  }

  method WriteCombLines(lines: seq<Op>, nMaxLen: int) returns (out: seq<Op>)
    ensures out == lines + CombLines(nMaxLen)
  {
    out := lines;
    var i := 1;
    while i < nMaxLen
      invariant 1 <= i && (i <= nMaxLen || i == 1) && out == lines + CombLines(i)
    {
      Regroup(lines, CombLines(i), [MoveTo, LineTo, Stroke]);
      out := out + [MoveTo, LineTo, Stroke];
      i := i + 1;
    }
  }

  /** SetAsTextField: background, border, comb separators and text. */
  method SetAsTextField(look: Look, edit: seq<EditStream.Op>, overflows: bool, color: ColorType, comb: bool,
                        nMaxLen: int) returns (contents: seq<Op>)
    ensures contents == Backdrop(look) + Comb(comb, look.style, look.border, nMaxLen) + FieldText(edit, overflows, color)
  {
    var sBody := WriteFieldText(edit, overflows, color);
    var sLines := [];
    if comb && (look.style == Solid || look.style == Dash) && |ColorOps(look.border)| > 0 {
      var settings := [LineState] + ColorOps(look.border) + (if look.style == Solid then [LineState, LineState] else [LineState]);
      sLines := [Save];
      sLines := sLines + settings;
      sLines := WriteCombLines(sLines, nMaxLen);
      Regroup([Save], settings, CombLines(nMaxLen));
      sLines := sLines + [Restore];
    }
    var background := GetBackgroundAppStream(look);
    var border := GetBorderAppStream(look);
    contents := background + border + sLines + sBody;
  }

  // ---------- They are well-formed ----------

  predicate IsBuild(op: Op) { op.Rect? || op.MoveTo? || op.LineTo? }

  predicate IsPaint(op: Op) { op.EndPath? || op.Fill? || op.FillEvenOdd? || op.Stroke? }

  predicate IsSetting(op: Op) { op.LineState? || op.Color? || op.ConcatMatrix? || op.Do? }

  predicate Settings(ops: seq<Op>) {
    forall i :: 0 <= i < |ops| ==> IsSetting(ops[i])
  }

  predicate PathBuild(ops: seq<Op>) {
    ops != [] && !ops[0].LineTo? && forall i :: 0 <= i < |ops| ==> IsBuild(ops[i])
  }

  lemma {:induction false} SettingsWellFormed(ops: seq<Op>)
    requires Settings(ops)
    ensures WellFormed(ops)
  {
    if ops != [] { SettingsWellFormed(ops[1..]); }
  }

  lemma {:induction false} InsidePath(ops: seq<Op>)
    requires forall i :: 0 <= i < |ops| ==> IsBuild(ops[i])
    ensures Run(State(Path, []), ops) == Some(State(Path, []))
  {
    if ops != [] { InsidePath(ops[1..]); }
  }

  lemma PathWellFormed(path: seq<Op>, paint: Op)
    requires PathBuild(path) && IsPaint(paint)
    ensures WellFormed(path + [paint])
  {
    InsidePath(path[1..]);
    RunConcat(State(Page, []), path, [paint]);
    RunOne(State(Path, []), paint);
  }

  lemma ClipWellFormed()
    ensures WellFormed(CLIP_TO_RECT)
  {
    assert CLIP_TO_RECT[1..] == [ClipPath, EndPath];
    assert [ClipPath, EndPath][1..] == [EndPath] && [EndPath][1..] == [];
    RunOne(State(Clipping, []), EndPath);
    assert Run(State(Path, []), [ClipPath, EndPath]) == Run(State(Clipping, []), [EndPath]);
    assert Run(State(Page, []), CLIP_TO_RECT) == Run(State(Path, []), CLIP_TO_RECT[1..]);
  }

  lemma PaintedWellFormed(c: ColorType, settings: seq<Op>, path: seq<Op>, paint: Op)
    requires Settings(settings) && PathBuild(path) && IsPaint(paint)
    ensures WellFormed(Painted(c, settings, path, paint))
  {
    PathWellFormed(path, paint);
    SettingsWellFormed(ColorOps(c) + settings);
    ConcatWellFormed(ColorOps(c) + settings, path + [paint]);
  }

  lemma BorderWellFormed(width: real, style: BorderStyle, color: ColorType, leftTop: ColorType, rightBottom: ColorType)
    ensures WellFormed(Border(width, style, color, leftTop, rightBottom))
  {
    PaintedWellFormed(color, [], [Rect, Rect], FillEvenOdd);
    PaintedWellFormed(color, [LineState, LineState], [MoveTo, LineTo, LineTo, LineTo, LineTo], Stroke);
    PaintedWellFormed(color, [LineState], [MoveTo, LineTo], Stroke);
    PaintedWellFormed(leftTop, [], HALF_BORDER, Fill);
    PaintedWellFormed(rightBottom, [], HALF_BORDER, Fill);
    var (a, b, c) := (Painted(leftTop, [], HALF_BORDER, Fill), Painted(rightBottom, [], HALF_BORDER, Fill),
                      Painted(color, [], [Rect, Rect], FillEvenOdd));
    ConcatWellFormed(a, b);
    ConcatWellFormed(a + b, c);
    QuotedWellFormed(BorderBody(style, color, leftTop, rightBottom));
  }

  lemma ColoredPathWellFormed(path: seq<Op>)
    requires PathBuild(path)
    ensures WellFormed(Quoted([Color] + (path + [Fill])))
  {
    PathWellFormed(path, Fill);
    SettingsWellFormed([Color]);
    ConcatWellFormed([Color], path + [Fill]);
    QuotedWellFormed([Color] + (path + [Fill]));
  }

  lemma RectFillWellFormed(c: ColorType)
    ensures WellFormed(RectFill(c))
  {
    ColoredPathWellFormed([Rect]);
  }

  lemma DropButtonWellFormed(empty: bool, large: bool)
    ensures WellFormed(DropButton(empty, large))
  {
    hide Border, Quoted, WellFormed;
    ColoredPathWellFormed([Rect]);
    ColoredPathWellFormed([MoveTo, LineTo, LineTo, LineTo]);
    SettingsWellFormed([]);
    BorderWellFormed(2.0, Beveled, Gray, Gray, Gray);
    var border := Border(2.0, Beveled, Gray, Gray, Gray);
    QuotedWellFormed(border);
    ConcatWellFormed(Quoted([Color] + ([Rect] + [Fill])), Quoted(border));
    ConcatWellFormed(Quoted([Color] + ([Rect] + [Fill])) + Quoted(border),
                     if large then Quoted([Color] + ([MoveTo, LineTo, LineTo, LineTo] + [Fill])) else []);
  }

  lemma FieldTextWellFormed(edit: seq<EditStream.Op>, overflows: bool, color: ColorType)
    ensures WellFormed(FieldText(edit, overflows, color))
  {
    var text := TextBlock(ColorOps(color) + Texts(edit));
    TextBlockWellFormed(ColorOps(color) + Texts(edit));
    ClipWellFormed();
    ConcatWellFormed(CLIP_TO_RECT, text);
    assert [] + text == text;
    var body := (if overflows then CLIP_TO_RECT else []) + text;
    QuotedWellFormed(body);
    MarkedWellFormed(Quoted(body));
  }

  lemma {:induction false} ListOpsWellFormed(items: seq<ListItem>, color: ColorType)
    ensures WellFormed(ListOps(items, color))
  {
    if items != [] {
      var item := items[|items| - 1];
      ListOpsWellFormed(items[..|items| - 1], color);
      ColoredPathWellFormed([Rect]);
      TextBlockWellFormed([Color] + Texts(item.edit));
      TextBlockWellFormed(ColorOps(color) + Texts(item.edit));
      ConcatWellFormed(Quoted([Color] + ([Rect] + [Fill])), TextBlock([Color] + Texts(item.edit)));
      ConcatWellFormed(ListOps(items[..|items| - 1], color), ListItemOps(item, color));
    }
  }

  lemma {:induction false} CombLinesWellFormed(cells: int)
    ensures WellFormed(CombLines(cells))
    decreases cells
  {
    if cells > 1 {
      CombLinesWellFormed(cells - 1);
      PathWellFormed([MoveTo, LineTo], Stroke);
      assert [MoveTo, LineTo] + [Stroke] == [MoveTo, LineTo, Stroke];
      ConcatWellFormed(CombLines(cells - 1), [MoveTo, LineTo, Stroke]);
    }
  }

  lemma CombWellFormed(comb: bool, style: BorderStyle, color: ColorType, cells: int)
    ensures WellFormed(Comb(comb, style, color, cells))
  {
    CombLinesWellFormed(cells);
    var (solid, dash) := ([LineState] + ColorOps(color) + [LineState, LineState], [LineState] + ColorOps(color) + [LineState]);
    SettingsWellFormed(solid);
    SettingsWellFormed(dash);
    ConcatWellFormed(solid, CombLines(cells));
    ConcatWellFormed(dash, CombLines(cells));
    QuotedWellFormed(solid + CombLines(cells));
    QuotedWellFormed(dash + CombLines(cells));
  }

  /** Whatever the field's colours, border, options, texts and cells: the three streams are well formed. */
  lemma FieldStreamsWellFormed(look: Look, edit: seq<EditStream.Op>, overflows: bool, textColor: ColorType,
                               items: seq<ListItem>, empty: bool, large: bool, comb: bool, cells: int)
    ensures var back := Backdrop(look);
      && WellFormed(back + FieldText(edit, overflows, textColor) + DropButton(empty, large))
      && WellFormed(back + ListBox(items, textColor))
      && WellFormed(back + Comb(comb, look.style, look.border, cells) + FieldText(edit, overflows, textColor))
  {
    hide ColorOps, FieldText, DropButton, ListBox, Comb, LookBorder, Backdrop;
    var back := Backdrop(look);
    BackdropWellFormed(look);
    FieldTextWellFormed(edit, overflows, textColor);
    DropButtonWellFormed(empty, large);
    ConcatWellFormed(back, FieldText(edit, overflows, textColor));
    ConcatWellFormed(back + FieldText(edit, overflows, textColor), DropButton(empty, large));
    ListBoxWellFormed(items, textColor);
    ConcatWellFormed(back, ListBox(items, textColor));
    CombWellFormed(comb, look.style, look.border, cells);
    ConcatWellFormed(back, Comb(comb, look.style, look.border, cells));
    ConcatWellFormed(back + Comb(comb, look.style, look.border, cells), FieldText(edit, overflows, textColor));
  }

  lemma BackdropWellFormed(look: Look)
    ensures WellFormed(Backdrop(look))
  {
    RectFillWellFormed(look.fill);
    BorderWellFormed(look.width * 2.0, Beveled, look.border, Gray, Divided(look.fill));
    BorderWellFormed(look.width * 2.0, Inset, look.border, Gray, Gray);
    BorderWellFormed(look.width, look.style, look.border, Transparent, Transparent);
    hide RectFill, Border;
    ConcatWellFormed(RectFill(look.fill), LookBorder(look));
  }

  lemma ListBoxWellFormed(items: seq<ListItem>, color: ColorType)
    ensures WellFormed(ListBox(items, color))
  {
    var list := ListOps(items, color);
    ListOpsWellFormed(items, color);
    ClipWellFormed();
    ConcatWellFormed(CLIP_TO_RECT, list);
    QuotedWellFormed(CLIP_TO_RECT + list);
    MarkedWellFormed(Quoted(CLIP_TO_RECT + list));
  }
}
