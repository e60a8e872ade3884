/** Which operator sequences are well formed content (section 8.2, figure 9 of ISO 32000-1). */
module ContentGrammar {
  import opened Basics
  import EditStream

  datatype Op =
    | Save | Restore | BeginText | EndText | BeginMarked | EndMarked
    | Rect | MoveTo | LineTo | ClipPath | EndPath | Fill | FillEvenOdd | Stroke
    | ConcatMatrix | LineState | Color | Do(alias: string) | Text(op: EditStream.Op)

  datatype Scope = Saved | InText | Marked

  /** At page level, inside a path, after its clipping operator, or inside a text object. */
  datatype Mode = Page | Path | Clipping | TextObject

  datatype State = State(mode: Mode, open: seq<Scope>)

  function Push(s: State, scope: Scope, mode: Mode): Option<State> {
    Some(State(mode, s.open + [scope]))
  }

  function Pop(s: State, scope: Scope, mode: Mode): Option<State> {
    if s.open != [] && s.open[|s.open| - 1] == scope then Some(State(mode, s.open[..|s.open| - 1])) else None
  }

  function When(ok: bool, s: State): Option<State> {
    if ok then Some(s) else None
  }

  /** Scopes close in the order they opened in reverse; q, Q, paths, cm and Do stand outside text objects; a path
      holds path operators only; Td and Tj stand inside text objects. */
  function Step(s: State, op: Op): Option<State> {
    match op
    case Save => if s.mode == Page then Push(s, Saved, Page) else None
    case Restore => if s.mode == Page then Pop(s, Saved, Page) else None
    case BeginText => if s.mode == Page then Push(s, InText, TextObject) else None
    case EndText => if s.mode == TextObject then Pop(s, InText, Page) else None
    case BeginMarked => if s.mode == Page || s.mode == TextObject then Push(s, Marked, s.mode) else None
    case EndMarked => if s.mode == Page || s.mode == TextObject then Pop(s, Marked, s.mode) else None
    case Rect => When(s.mode == Page || s.mode == Path, s.(mode := Path))
    case MoveTo => When(s.mode == Page || s.mode == Path, s.(mode := Path))
    case LineTo => When(s.mode == Path, s)
    case ClipPath => When(s.mode == Path, s.(mode := Clipping))
    case EndPath => When(s.mode == Path || s.mode == Clipping, s.(mode := Page))
    case Fill => When(s.mode == Path || s.mode == Clipping, s.(mode := Page))
    case FillEvenOdd => When(s.mode == Path || s.mode == Clipping, s.(mode := Page))
    case Stroke => When(s.mode == Path || s.mode == Clipping, s.(mode := Page))
    case ConcatMatrix => When(s.mode == Page, s)
    case LineState => When(s.mode == Page || s.mode == TextObject, s)
    case Color => When(s.mode == Page || s.mode == TextObject, s)
    case Do(_) => When(s.mode == Page, s)
    case Text(op) => When(s.mode == TextObject || (op.Tf? && s.mode == Page), s)
  }

  function Run(s: State, ops: seq<Op>): Option<State>
    decreases ops
  {
    if ops == [] then Some(s)
    else
      match Step(s, ops[0])
      case None => None
      case Some(s') => Run(s', ops[1..])
  }

  /** From page level back to page level with every scope closed again. */
  predicate WellFormed(ops: seq<Op>) {
    Run(State(Page, []), ops) == Some(State(Page, []))
  }

  // ---------- Composition ----------

  lemma {:induction false} RunConcat(s: State, a: seq<Op>, b: seq<Op>)
    ensures Run(s, a + b) == match Run(s, a) case None => None case Some(s') => Run(s', b)
    decreases a
  {
    if a == [] {
      assert a + b == b;
    } else {
      assert (a + b)[1..] == a[1..] + b;
      match Step(s, a[0]) {
        case None =>
        case Some(s') => RunConcat(s', a[1..], b);
      }
    }
  }

  function Under(base: seq<Scope>, s: State): State {
    s.(open := base + s.open)
  }

  lemma StepUnder(base: seq<Scope>, s: State, op: Op)
    requires Step(s, op).Some?
    ensures Step(Under(base, s), op) == Some(Under(base, Step(s, op).value))
  {
    var all := base + s.open;
    if s.open != [] {
      assert all[..|all| - 1] == base + s.open[..|s.open| - 1];
      assert all[|all| - 1] == s.open[|s.open| - 1];
    }
    assert forall x: Scope :: all + [x] == base + (s.open + [x]);
  }

  /** What runs from some open scopes runs the same below more open scopes. */
  lemma {:induction false} RunUnder(base: seq<Scope>, s: State, ops: seq<Op>)
    requires Run(s, ops).Some?
    ensures Run(Under(base, s), ops) == Some(Under(base, Run(s, ops).value))
    decreases ops
  {
    if ops != [] {
      StepUnder(base, s, ops[0]);
      RunUnder(base, Step(s, ops[0]).value, ops[1..]);
    }
  }

  lemma WellFormedAnywhere(ops: seq<Op>, open: seq<Scope>)
    requires WellFormed(ops)
    ensures Run(State(Page, open), ops) == Some(State(Page, open))
  {
    RunUnder(open, State(Page, []), ops);
    assert open + [] == open;
  }

  lemma ConcatWellFormed(a: seq<Op>, b: seq<Op>)
    requires WellFormed(a) && WellFormed(b)
    ensures WellFormed(a + b)
  {
    RunConcat(State(Page, []), a, b);
  }

  function Quoted(body: seq<Op>): seq<Op> { [Save] + body + [Restore] }

  function MarkedContent(body: seq<Op>): seq<Op> { [BeginMarked] + body + [EndMarked] }

  function TextBlock(body: seq<Op>): seq<Op> { [BeginText] + body + [EndText] }

  lemma RunEnclosed(s: State, first: Op, body: seq<Op>, last: Op)
    ensures Run(s, [first] + body + [last]) ==
      match Step(s, first)
      case None => None
      case Some(s1) => match Run(s1, body) case None => None case Some(s2) => Step(s2, last)
  {
    RunConcat(s, [first] + body, [last]);
    RunConcat(s, [first], body);
    RunOne(s, first);
    match Run(s, [first] + body) {
      case None =>
      case Some(s2) => RunOne(s2, last);
    }
  }

  lemma RunOne(s: State, op: Op)
    ensures Run(s, [op]) == Step(s, op)
  {
    assert [op][1..] == [];
  }

  lemma OpenAndClose(scope: Scope)
    ensures [] + [scope] == [scope] && [scope][..0] == []
  {
  }

  lemma QuotedWellFormed(body: seq<Op>)
    requires WellFormed(body)
    ensures WellFormed(Quoted(body))
  {
    RunEnclosed(State(Page, []), Save, body, Restore);
    WellFormedAnywhere(body, [Saved]);
    OpenAndClose(Saved);
  }

  lemma MarkedWellFormed(body: seq<Op>)
    requires WellFormed(body)
    ensures WellFormed(MarkedContent(body))
  {
    RunEnclosed(State(Page, []), BeginMarked, body, EndMarked);
    WellFormedAnywhere(body, [Marked]);
    OpenAndClose(Marked);
  }

  /** Operators that may stand in a text object and leave it open. */
  predicate TextOnly(ops: seq<Op>) {
    forall i :: 0 <= i < |ops| ==> ops[i].Text? || ops[i].Color?
  }

  lemma {:induction false} RunText(open: seq<Scope>, ops: seq<Op>)
    requires TextOnly(ops)
    ensures Run(State(TextObject, open), ops) == Some(State(TextObject, open))
  {
    if ops != [] { RunText(open, ops[1..]); }
  }

  lemma TextBlockWellFormed(body: seq<Op>)
    requires TextOnly(body)
    ensures WellFormed(TextBlock(body))
  {
    RunEnclosed(State(Page, []), BeginText, body, EndText);
    RunText([InText], body);
    OpenAndClose(InText);
  }
}
