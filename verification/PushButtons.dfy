/** The push button stream, whose inner part is copied through a C string and so ends at the first NUL byte. */
module PushButtons {
  import opened Basics
  import EditStream
  import opened ContentGrammar
  import opened AppStreams
  import opened Sequences

  /** The icon, drawn by its XObject alias under its clip and matrices. */
  function IconBody(alias: string): seq<Op> {
    CLIP_TO_RECT + [ConcatMatrix, ConcatMatrix, Color, Color, LineState, Do(alias)]
  }

  function Icon(alias: Option<string>): seq<Op> {
    match alias
    case None => []
    case Some(a) => Quoted(IconBody(a))
  }

  function Label(edit: seq<EditStream.Op>, color: ColorType): seq<Op> {
    if edit == [] then [] else TextBlock(ColorOps(color) + Texts(edit))
  }

  /** The written form of the operator holds a NUL byte. */
  predicate HasNul(op: Op) {
    match op
    case Do(alias) => '\0' in alias
    case Text(Tf(alias, _)) => '\0' in alias
    case Text(Tj(text)) => '\0' in text
    case _ => false
  }

  predicate NulFree(ops: seq<Op>) {
    forall i :: 0 <= i < |ops| ==> !HasNul(ops[i])
  }

  /** What c_str() leaves: the complete operators before the first one with a NUL byte. The piece of that operator
      which is also copied completes no operator and is left out. */
  function UpToNul(ops: seq<Op>): seq<Op> {
    if ops == [] || HasNul(ops[0]) then [] else [ops[0]] + UpToNul(ops[1..])
  }

  function PushButton(icon: Option<string>, edit: seq<EditStream.Op>, color: ColorType): seq<Op> {
    var inner := Icon(icon) + Label(edit, color);
    if inner == [] then [] else Quoted(CLIP_TO_RECT + UpToNul(inner))
  }

  /** GetPushButtonAppStream, after the layout decided on icon and label. */
  method GetPushButtonAppStream(icon: Option<string>, edit: seq<EditStream.Op>, color: ColorType) returns (out: seq<Op>)
    ensures out == PushButton(icon, edit, color)
  {
    hide UpToNul, ColorOps, Texts, IconBody;
    var sTemp := [];
    if icon.Some? {
      sTemp := [Save];
      sTemp := sTemp + IconBody(icon.value);
      sTemp := sTemp + [Restore];
    }
    if |edit| > 0 {
      ghost var before := sTemp;
      sTemp := sTemp + [BeginText];
      sTemp := sTemp + (ColorOps(color) + Texts(edit));
      sTemp := sTemp + [EndText];
      AppendEnclosed(before, BeginText, ColorOps(color) + Texts(edit), EndText);
    }
    assert sTemp == Icon(icon) + Label(edit, color);
    if |sTemp| == 0 {
      return [];
    }
    out := [Save];
    out := out + (CLIP_TO_RECT + UpToNul(sTemp));
    out := out + [Restore];
  }

  // ---------- Well-formed exactly without NUL ----------

  lemma {:induction false} NulFreeUncut(ops: seq<Op>)
    requires NulFree(ops)
    ensures UpToNul(ops) == ops
  {
    if ops != [] { NulFreeUncut(ops[1..]); }
  }

  lemma NulFreeConcat(a: seq<Op>, b: seq<Op>)
    ensures NulFree(a + b) <==> NulFree(a) && NulFree(b)
  {
    assert forall i :: 0 <= i < |a| ==> (a + b)[i] == a[i];
    assert forall i :: 0 <= i < |b| ==> (a + b)[|a| + i] == b[i];
  }

  lemma {:induction false} UpToNulConcat(a: seq<Op>, b: seq<Op>)
    ensures UpToNul(a + b) == if NulFree(a) then a + UpToNul(b) else UpToNul(a)
  {
    if a == [] {
      assert a + b == b;
    } else {
      assert (a + b)[1..] == a[1..] + b;
      UpToNulConcat(a[1..], b);
      assert NulFree(a) <==> !HasNul(a[0]) && NulFree(a[1..]);
    }
  }

  /** The cut is where the first NUL stands. */
  lemma {:induction false} CutIsPrefix(ops: seq<Op>)
    ensures UpToNul(ops) <= ops && NulFree(UpToNul(ops))
    ensures |UpToNul(ops)| < |ops| ==> HasNul(ops[|UpToNul(ops)|])
  {
    if ops != [] { CutIsPrefix(ops[1..]); }
  }

  lemma IconWellFormed(alias: string)
    ensures WellFormed(Quoted(IconBody(alias)))
  {
    ClipWellFormed();
    SettingsWellFormed([ConcatMatrix, ConcatMatrix, Color, Color, LineState, Do(alias)]);
    ConcatWellFormed(CLIP_TO_RECT, [ConcatMatrix, ConcatMatrix, Color, Color, LineState, Do(alias)]);
    QuotedWellFormed(IconBody(alias));
  }

  lemma LabelWellFormed(edit: seq<EditStream.Op>, color: ColorType)
    ensures WellFormed(Label(edit, color))
  {
    TextBlockWellFormed(ColorOps(color) + Texts(edit));
  }

  /** An icon whose alias has a NUL is cut inside its q, which stays open. */
  lemma CutIconStaysOpen(alias: string, text: seq<Op>)
    requires '\0' in alias
    ensures Run(State(Page, []), CLIP_TO_RECT + UpToNul(Quoted(IconBody(alias)) + text)) == Some(State(Page, [Saved]))
  {
    var settings := [ConcatMatrix, ConcatMatrix, Color, Color, LineState];
    var icon := Quoted(IconBody(alias));
    var kept := [Save] + (CLIP_TO_RECT + settings);
    assert icon + text == kept + ([Do(alias)] + [Restore] + text);
    UpToNulConcat(kept, [Do(alias)] + [Restore] + text);
    assert UpToNul([Do(alias)] + [Restore] + text) == [];
    assert kept + [] == kept;
    ClipWellFormed();
    SettingsWellFormed(settings);
    ConcatWellFormed(CLIP_TO_RECT, settings);
    WellFormedAnywhere(CLIP_TO_RECT + settings, [Saved]);
    RunConcat(State(Page, []), [Save], CLIP_TO_RECT + settings);
    RunOne(State(Page, []), Save);
    OpenAndClose(Saved);
    RunConcat(State(Page, []), CLIP_TO_RECT, kept);
  }

  /** A label with a NUL is cut inside its text object, which stays open. */
  lemma CutTextStaysOpen(body: seq<Op>)
    requires TextOnly(body) && !NulFree(TextBlock(body))
    ensures Run(State(Page, []), UpToNul(TextBlock(body))) == Some(State(TextObject, [InText]))
  {
    NulFreeConcat([BeginText] + body, [EndText]);
    NulFreeConcat([BeginText], body);
    UpToNulConcat([BeginText] + body, [EndText]);
    UpToNulConcat([BeginText], body);
    assert NulFree([BeginText]) && NulFree([EndText]);
    hide UpToNul, NulFree, Run;
    CutIsPrefix(body);
    var cut := UpToNul(body);
    assert forall i :: 0 <= i < |cut| ==> cut[i] == body[i];
    RunText([InText], cut);
    RunConcat(State(Page, []), [BeginText], cut);
    RunOne(State(Page, []), BeginText);
    OpenAndClose(InText);
  }

  lemma OpenScopeLeaksOut(inner: seq<Op>, s: State)
    requires Run(State(Page, []), inner) == Some(s) && s.open != []
    ensures !WellFormed(Quoted(inner))
  {
    RunUnder([Saved], State(Page, []), inner);
    OpenAndClose(Saved);
    assert [Saved] + [] == [Saved];
    RunEnclosed(State(Page, []), Save, inner, Restore);
  }

  /** No NUL byte in the alias of the icon, nor in a font alias or a text of the label. */
  predicate NoNulGiven(icon: Option<string>, edit: seq<EditStream.Op>) {
    && (icon.Some? ==> '\0' !in icon.value)
    && forall i :: 0 <= i < |edit| ==>
         match edit[i] case Td(_, _) => true case Tf(alias, _) => '\0' !in alias case Tj(text) => '\0' !in text
  }

  lemma NulFreeIff(icon: Option<string>, edit: seq<EditStream.Op>, color: ColorType)
    ensures NulFree(Icon(icon) + Label(edit, color)) <==> NoNulGiven(icon, edit)
  {
    NulFreeConcat(Icon(icon), Label(edit, color));
    if icon.Some? && !NulFree(Icon(icon)) { IconNul(icon.value); }
    if icon.Some? && '\0' in icon.value { IconHasNul(icon.value); }
    if edit != [] {
      NulFreeConcat([BeginText] + (ColorOps(color) + Texts(edit)), [EndText]);
      NulFreeConcat([BeginText], ColorOps(color) + Texts(edit));
      NulFreeConcat(ColorOps(color), Texts(edit));
      TextsNulFree(edit);
    }
  }

  lemma TextsNulFree(edit: seq<EditStream.Op>)
    ensures NulFree(Texts(edit)) <==> NoNulGiven(None, edit)
  {
    if NulFree(Texts(edit)) {
      forall i | 0 <= i < |edit| ensures !HasNul(Text(edit[i])) { assert !HasNul(Texts(edit)[i]); }
    }
  }

  lemma IconHasNul(alias: string)
    requires '\0' in alias
    ensures !NulFree(Quoted(IconBody(alias)))
  {
    var icon := Quoted(IconBody(alias));
    assert icon[|icon| - 2] == Do(alias) && HasNul(icon[|icon| - 2]);
  }

  /** The push button's stream is well formed exactly when neither the icon's alias nor the label holds a NUL byte. */
  lemma PushButtonWellFormedIff(icon: Option<string>, edit: seq<EditStream.Op>, color: ColorType)
    ensures WellFormed(PushButton(icon, edit, color)) <==> NoNulGiven(icon, edit)
  {
    NulFreeIff(icon, edit, color);
    WellFormedIffNulFree(icon, edit, color);
    hide WellFormed, NulFree, NoNulGiven;
  }

  lemma WellFormedIffNulFree(icon: Option<string>, edit: seq<EditStream.Op>, color: ColorType)
    ensures WellFormed(PushButton(icon, edit, color)) <==> NulFree(Icon(icon) + Label(edit, color))
  {
    var (i, l) := (Icon(icon), Label(edit, color));
    if icon.Some? { IconWellFormed(icon.value); }
    LabelWellFormed(edit, color);
    ClipWellFormed();
    if NulFree(i + l) {
      NulFreeUncut(i + l);
      ConcatWellFormed(i, l);
      ConcatWellFormed(CLIP_TO_RECT, i + l);
      QuotedWellFormed(CLIP_TO_RECT + (i + l));
    } else if !NulFree(i) {
      IconNul(icon.value);
      CutIconStaysOpen(icon.value, l);
      OpenScopeLeaksOut(CLIP_TO_RECT + UpToNul(i + l), State(Page, [Saved]));
    } else {
      UpToNulConcat(i, l);
      NulFreeConcat(i, l);
      CutTextStaysOpen(ColorOps(color) + Texts(edit));
      RunConcat(State(Page, []), i, UpToNul(l));
      RunConcat(State(Page, []), CLIP_TO_RECT, i + UpToNul(l));
      OpenScopeLeaksOut(CLIP_TO_RECT + UpToNul(i + l), State(TextObject, [InText]));
    }
  }

  lemma IconNul(alias: string)
    requires !NulFree(Quoted(IconBody(alias)))
    ensures '\0' in alias
  {
    var icon := Quoted(IconBody(alias));
    var k :| 0 <= k < |icon| && HasNul(icon[k]);
    assert icon == [Save] + CLIP_TO_RECT + [ConcatMatrix, ConcatMatrix, Color, Color, LineState] + [Do(alias)] + [Restore];
  }

  /** A label whose encoded bytes hold a NUL, as the two-byte code 00 41 does: the stream ends inside its text object. */
  lemma NulInLabelBreaks(color: ColorType)
    ensures !WellFormed(PushButton(None, [EditStream.Tj("\0A")], color))
  {
    var edit := [EditStream.Tj("\0A")];
    hide WellFormed, PushButton;
    PushButtonWellFormedIff(None, edit, color);
    assert edit[0].text[0] == '\0';
  }
}
