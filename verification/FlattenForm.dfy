/** The form XObject that draws a page's annotations when the page is flattened. */
module FlattenForm {
  import opened Basics
  import opened FlattenMatrix
  import opened GraphicsState
  import opened PageContents
  import opened Numerals
  import Sequences

  /** An entry of an appearance dictionary: a stream within it, a reference to one, or something else. */
  datatype Slot = NotStream | Inline(dict: Dict, ops: seq<Op>) | At(n: nat)

  /** The N entry of an appearance dictionary; the states of a dictionary are in the order of their names. */
  datatype Normal = Missing | One(slot: Slot) | States(entries: seq<(string, Slot)>)

  datatype Entry =
    | NotDictionary
    | Annotation(subtype: string, flags: bv32, rect: Rect, state: string, normal: Normal)

  const INVISIBLE: bv32 := 1
  const HIDDEN: bv32 := 2
  const PRINT: bv32 := 4

  datatype Usage = NormalDisplay | ForPrint

  /** Which annotations of a page are drawn: section 12.5.3 of ISO 32000-1 without the pop-ups. */
  predicate Drawn(e: Entry, usage: Usage) {
    && e.Annotation? && e.subtype != "Popup" && e.flags & HIDDEN == 0
    && (if usage.NormalDisplay? then e.flags & INVISIBLE == 0 else e.flags & PRINT != 0)
  }

  function Chosen(entries: seq<Entry>, usage: Usage): (r: seq<Entry>)
    ensures forall e :: e in r ==> e in entries && Drawn(e, usage)
  {
    if entries == [] then []
    else (if Drawn(entries[0], usage) then [entries[0]] else []) + Chosen(entries[1..], usage)
  }

  lemma {:induction false} ChosenAppend(a: seq<Entry>, e: Entry, usage: Usage)
    ensures Chosen(a + [e], usage) == Chosen(a, usage) + (if Drawn(e, usage) then [e] else [])
  {
    if a == [] {
      assert a + [e] == [e];
    } else {
      assert (a + [e])[1..] == a[1..] + [e];
      ChosenAppend(a[1..], e, usage);
    }
  }

  lemma {:induction false} ChosenFilters(entries: seq<Entry>, usage: Usage) returns (js: seq<nat>)
    ensures Sequences.PickedAt(Chosen(entries, usage), entries, js)
    ensures forall i: nat :: i in js <==> i < |entries| && Drawn(entries[i], usage)
    decreases |entries|
  {
    hide Drawn;
    js := [];
    if entries != [] {
      var (front, e) := (entries[..|entries| - 1], entries[|entries| - 1]);
      js := ChosenFilters(front, usage);
      assert entries == front + [e];
      ChosenAppend(front, e, usage);
      hide Chosen;
      Sequences.PickedMore(Chosen(front, usage), front, js, e);
      hide Sequences.PickedAt;
      if Drawn(e, usage) { js := js + [|front|]; }
    }
  }

  /** Told by the annotation itself: it is no pop-up, not hidden, and not invisible or, for printing, to be printed. */
  predicate IsShown(e: Entry, usage: Usage) {
    && e.Annotation? && e.subtype != "Popup" && e.flags & 2 == 0
    && match usage case NormalDisplay => e.flags & 1 == 0 case ForPrint => e.flags & 4 == 4
  }

  lemma DrawnIsShown(e: Entry, usage: Usage)
    ensures Drawn(e, usage) <==> IsShown(e, usage)
  {
    FlagSet(e);
  }

  /** Chosen are, in their order, exactly the annotations that are shown. */
  lemma ChosenAre(entries: seq<Entry>, usage: Usage) returns (js: seq<nat>)
    ensures Sequences.PickedAt(Chosen(entries, usage), entries, js)
    ensures forall i: nat :: i in js <==> i < |entries| && IsShown(entries[i], usage)
  {
    hide *;
    js := ChosenFilters(entries, usage);
    forall i: nat | i < |entries| ensures Drawn(entries[i], usage) <==> IsShown(entries[i], usage) {
      DrawnIsShown(entries[i], usage);
    }
  }

  lemma FlagSet(e: Entry)
    ensures e.Annotation? ==> (e.flags & PRINT != 0 <==> e.flags & 4 == 4)
  {
  }

  /** ParserAnnots. */
  method ParserAnnots(entries: seq<Entry>, usage: Usage) returns (objects: seq<Entry>)
    ensures objects == Chosen(entries, usage)
  {
    objects := [];
    for i := 0 to |entries|
      invariant objects == Chosen(entries[..i], usage)
    {
      var e := entries[i];
      ChosenAppend(entries[..i], e, usage);
      assert entries[..i + 1] == entries[..i] + [e];
      if e.NotDictionary? || e.subtype == "Popup" || e.flags & HIDDEN != 0 { continue; }
      var parse: bool;
      if usage == NormalDisplay { parse := e.flags & INVISIBLE == 0; } else { parse := e.flags & PRINT != 0; }
      if parse { objects := objects + [e]; }
    }
    assert entries[..|entries|] == entries;
  }

  function StreamOf(store: Store, slot: Slot): (r: Option<Object>)
    ensures r.Some? ==> r.value.Stream?
  {
    match slot
    case NotStream => None
    case Inline(dict, ops) => Some(Stream(dict, ops))
    case At(n) => if store.At(n).Stream? then Some(store.At(n)) else None
  }

  function Find(entries: seq<(string, Slot)>, state: string): Slot {
    if entries == [] then NotStream
    else if entries[0].0 == state then entries[0].1
    else Find(entries[1..], state)
  }

  /** Where the normal appearance is to be found: by the appearance state, or else the first state there is. */
  function AppearanceSlot(e: Entry): Slot
    requires e.Annotation?
  {
    match e.normal
    case Missing => NotStream
    case One(slot) => slot
    case States(entries) =>
      if e.state != "" then Find(entries, e.state)
      else if entries == [] then NotStream else entries[0].1
  }

  const NO_RECT := Rect(0.0, 0.0, 0.0, 0.0)

  function BoxOf(dict: Dict): Rect {
    (if dict.rect.Some? then dict.rect.value else if dict.box.Some? then dict.box.value else NO_RECT).Normalize()
  }

  /** The appearance stream to draw; none for a missing one and for one with an empty box. */
  function Appearance(store: Store, e: Entry): (r: Option<Object>)
    requires e.Annotation?
    ensures r.Some? ==> r.value.Stream? && !BoxOf(r.value.dict).IsEmpty()
  {
    var stream := StreamOf(store, AppearanceSlot(e));
    if stream.Some? && BoxOf(stream.value.dict).IsEmpty() then None else stream
  }

  /** GetMatrix; the scale of a box whose image has no width or height is not finite. */
  function Fit(annot: Rect, box: Rect, form: Matrix): Transform {
    if !box.IsEmpty() && !Invertible(box, form) then NotFinite else Finite(FitMatrix(annot, box, form))
  }

  function FormName(i: nat): string { "F" + Decimal(i) }

  function DrawOps(t: Transform, name: string): seq<Op> { [Save, Cm(t), Do(name), Restore] }

  function Placed(e: Entry, appearance: Object): Transform
    requires e.Annotation? && appearance.Stream?
  {
    Fit(e.rect.Normalize(), BoxOf(appearance.dict), appearance.dict.matrix)
  }

  /** The form f with one more drawing. */
  function WithDrawing(f: Object, i: nat, n: nat, t: Transform): Object
    requires f.Stream?
  {
    Stream(f.dict.(resources := f.dict.resources[FormName(i) := n]), f.ops + DrawOps(t, FormName(i)))
  }

  /** The loop body: annotation i drawn into the form with number f. */
  function DrawOne(store: Store, f: nat, i: nat, e: Entry): Store
    requires e.Annotation? && store.At(f).Stream? && f <= store.last
  {
    var appearance := Appearance(store, e);
    if appearance.None? then store
    else
      var slot := AppearanceSlot(e);
      var named := if slot.Inline? then store.Add(appearance.value) else store;
      var n := if slot.Inline? then named.last else slot.n;
      named.Put(f, WithDrawing(store.At(f), i, n, Placed(e, appearance.value)))
  }

  predicate AllAnnotations(entries: seq<Entry>) {
    forall i :: 0 <= i < |entries| ==> entries[i].Annotation?
  }

  /** The document after the first k annotations. */
  function DrawUpTo(store: Store, f: nat, entries: seq<Entry>, k: nat): (r: Store)
    requires k <= |entries| && AllAnnotations(entries) && store.At(f).Stream? && f <= store.last
    ensures r.At(f).Stream? && f <= r.last
  {
    if k == 0 then store
    else
      var before := DrawUpTo(store, f, entries, k - 1);
      DrawOne(before, f, k - 1, entries[k - 1])
  }

  /** FPDFPage_Flatten's loop over the annotations. */
  method DrawAnnotations(entries: seq<Entry>, f: nat, document: Document)
    requires AllAnnotations(entries) && document.Now().At(f).Stream? && f <= document.last
    modifies document
    ensures document.Now() == DrawUpTo(old(document.Now()), f, entries, |entries|)
  {
    for i := 0 to |entries|
      invariant document.Now() == DrawUpTo(old(document.Now()), f, entries, i)
    {
      var e := entries[i];
      var slot := NotStream;
      match e.normal {
        case Missing =>
        case One(s) => slot := s;
        case States(states) =>
          if e.state != "" {
            slot := Find(states, e.state);
          } else if |states| > 0 {
            slot := states[0].1;
          }
      }
      var stream := StreamOf(document.Now(), slot);
      if stream.None? { continue; }
      var dict := stream.value.dict;
      var box := NO_RECT;
      if dict.rect.Some? { box := dict.rect.value; } else if dict.box.Some? { box := dict.box.value; }
      box := box.Normalize();
      if box.IsEmpty() { continue; }
      var n := if slot.At? then slot.n else 0;
      if slot.Inline? { n := document.AddIndirectObject(stream.value); }
      var form := document.Now().At(f);
      var t := Fit(e.rect.Normalize(), box, dict.matrix);
      document.Replace(f, WithDrawing(form, i, n, t));
    }
  }

  /** What a form paints under a state: the objects its names stand for, each with its transformation. */
  function Painted(store: Store, resources: map<string, nat>, events: seq<Event>): seq<(Object, Transform)> {
    if events == [] then []
    else
      (match events[0]
       case Used(name, s) => [(if name in resources then store.At(resources[name]) else Other, s.ctm)]
       case Marked(_, _) => [])
      + Painted(store, resources, events[1..])
  }

  function FormPaints(store: Store, f: nat, s: State): seq<(Object, Transform)>
    requires store.At(f).Stream?
  {
    Painted(store, store.At(f).dict.resources, Run(store.At(f).ops, Fresh(s)).events)
  }

  /** What is to be painted for one annotation. */
  function Due(store: Store, e: Entry, s: State): seq<(Object, Transform)>
    requires e.Annotation?
  {
    var appearance := Appearance(store, e);
    if appearance.None? then [] else [(appearance.value, Placed(e, appearance.value).Then(s.ctm))]
  }

  /** The appearance streams of the first k annotations, in their order. */
  function DueUpTo(store: Store, entries: seq<Entry>, k: nat, s: State): seq<(Object, Transform)>
    requires k <= |entries| && AllAnnotations(entries)
  {
    if k == 0 then [] else DueUpTo(store, entries, k - 1, s) + Due(store, entries[k - 1], s)
  }

  /** Every reference of the annotations is to an object older than the form. */
  predicate SlotsBelow(entries: seq<Entry>, f: nat) {
    forall i :: 0 <= i < |entries| && entries[i].Annotation? ==>
      (AppearanceSlot(entries[i]).At? ==> AppearanceSlot(entries[i]).n < f)
  }

  lemma FormNameInjective(i: nat, j: nat)
    requires FormName(i) == FormName(j)
    ensures i == j
  {
    assert FormName(i)[1..] == Decimal(i) && FormName(j)[1..] == Decimal(j);
    DecimalInjective(i, j);
  }

  /** The state of the loop: names used so far, each for an object that stays as it is. */
  ghost predicate FormInvariant(store: Store, f: nat, k: nat) {
    && store.Valid() && f in store.objects && store.At(f).Stream?
    && forall name :: name in store.At(f).dict.resources ==>
         (exists i: nat :: i < k && name == FormName(i))
         && store.At(f).dict.resources[name] in store.objects
         && store.At(f).dict.resources[name] != f
  }

  /** Every use among the events is of a known name. */
  predicate UsesKnown(resources: map<string, nat>, events: seq<Event>) {
    forall i :: 0 <= i < |events| && events[i].Used? ==> events[i].resource in resources
  }

  lemma {:induction false} PaintedFrame(a: Store, b: Store, r: map<string, nat>, r': map<string, nat>, events: seq<Event>)
    requires UsesKnown(r, events)
    requires forall name :: name in r ==> name in r' && r'[name] == r[name] && a.At(r[name]) == b.At(r[name])
    ensures Painted(a, r, events) == Painted(b, r', events)
    decreases |events|
  {
    if events != [] {
      assert UsesKnown(r, events[1..]);
      PaintedFrame(a, b, r, r', events[1..]);
    }
  }

  lemma {:induction false} PaintedAppend(store: Store, r: map<string, nat>, a: seq<Event>, b: seq<Event>)
    ensures Painted(store, r, a + b) == Painted(store, r, a) + Painted(store, r, b)
    decreases |a|
  {
    if a == [] {
      assert a + b == b;
    } else {
      assert (a + b)[0] == a[0] && (a + b)[1..] == a[1..] + b;
      PaintedAppend(store, r, a[1..], b);
    }
  }

  lemma RunDraw(t: Transform, name: string, m: Machine)
    ensures Run(DrawOps(t, name), m)
         == Outcome(m, [Used(name, State(t.Then(m.current.ctm), m.current.settings))])
  {
    var ops := DrawOps(t, name);
    assert ops[1..] == [Cm(t), Do(name), Restore];
    assert ops[1..][1..] == [Do(name), Restore];
    assert ops[1..][1..][1..] == [Restore];
    var inside := Machine(m.current, m.saved + [m.current]);
    var moved := Machine(State(t.Then(m.current.ctm), m.current.settings), inside.saved);
    RunOne(Restore, moved);
    assert Popped(moved) == m;
    assert Run([Do(name), Restore], moved) == Outcome(m, [Used(name, moved.current)]);
    assert Run(ops[1..], inside) == Outcome(m, [Used(name, moved.current)]);
  }

  /** What drawing one annotation leaves as it was. */
  lemma DrawOneFrame(store: Store, f: nat, i: nat, e: Entry)
    requires e.Annotation? && FormInvariant(store, f, i) && (AppearanceSlot(e).At? ==> AppearanceSlot(e).n < f)
    ensures var after := DrawOne(store, f, i, e);
      && FormInvariant(after, f, i + 1) && store.last <= after.last
      && SameExcept(store, after, f)
      && (forall n :: n in store.objects ==> n in after.objects)
  {
    hide BoxOf, Fit, Run, Decimal;
    var after := DrawOne(store, f, i, e);
    if Appearance(store, e).Some? {
      var r := store.At(f).dict.resources;
      forall name | name in after.At(f).dict.resources
        ensures exists j: nat :: j < i + 1 && name == FormName(j)
      {
        if name in r { var j: nat :| j < i && name == FormName(j); } else { assert name == FormName(i); }
      }
    } else {
      forall name | name in store.At(f).dict.resources
        ensures exists j: nat :: j < i + 1 && name == FormName(j)
      {
        var j: nat :| j < i && name == FormName(j);
      }
    }
  }

  /** Running the form after one more drawing: the same as before, and then this one. */
  lemma DrawOnePaints(store: Store, f: nat, i: nat, e: Entry, s: State)
    requires e.Annotation? && FormInvariant(store, f, i) && (AppearanceSlot(e).At? ==> AppearanceSlot(e).n < f)
    requires Run(store.At(f).ops, Fresh(s)).machine == Fresh(s)
    requires UsesKnown(store.At(f).dict.resources, Run(store.At(f).ops, Fresh(s)).events)
    ensures var after := DrawOne(store, f, i, e);
      && after.At(f).Stream?
      && Run(after.At(f).ops, Fresh(s)).machine == Fresh(s)
      && UsesKnown(after.At(f).dict.resources, Run(after.At(f).ops, Fresh(s)).events)
      && FormPaints(after, f, s) == FormPaints(store, f, s) + Due(store, e, s)
  {
    hide BoxOf, Fit, Run, Decimal, DrawOps, FormName, Placed;
    DrawOneFrame(store, f, i, e);
    var after := DrawOne(store, f, i, e);
    var appearance := Appearance(store, e);
    if appearance.Some? {
      var (form, r) := (store.At(f), store.At(f).dict.resources);
      var (t, r') := (Placed(e, appearance.value), after.At(f).dict.resources);
      var use := Used(FormName(i), State(t.Then(s.ctm), s.settings));
      RunAppend(form.ops, DrawOps(t, FormName(i)), Fresh(s));
      RunDraw(t, FormName(i), Fresh(s));
      var events := Run(form.ops, Fresh(s)).events;
      assert Run(after.At(f).ops, Fresh(s)).events == events + [use];
      NameIsNew(store, f, i);
      PaintedFrame(store, after, r, r', events);
      PaintedAppend(after, r', events, [use]);
      PaintedOne(after, r', FormName(i), use.under);
      assert after.At(r'[FormName(i)]) == appearance.value;
    } else {
      assert FormPaints(store, f, s) + [] == FormPaints(store, f, s);
    }
  }

  lemma NameIsNew(store: Store, f: nat, i: nat)
    requires FormInvariant(store, f, i)
    ensures FormName(i) !in store.At(f).dict.resources
  {
    if FormName(i) in store.At(f).dict.resources {
      var j: nat :| j < i && FormName(i) == FormName(j);
      FormNameInjective(i, j);
    }
  }

  lemma PaintedOne(store: Store, r: map<string, nat>, name: string, s: State)
    requires name in r
    ensures Painted(store, r, [Used(name, s)]) == [(store.At(r[name]), s.ctm)]
  {
    assert [Used(name, s)][1..] == [];
  }

  /** Two documents that agree below the form have the same appearances to draw. */
  lemma DueFrame(a: Store, b: Store, f: nat, e: Entry, s: State)
    requires e.Annotation? && f <= a.last && SameExcept(a, b, f)
    requires AppearanceSlot(e).At? ==> AppearanceSlot(e).n < f
    ensures Due(a, e, s) == Due(b, e, s)
  {
    hide AppearanceSlot, BoxOf, Placed;
    assert StreamOf(a, AppearanceSlot(e)) == StreamOf(b, AppearanceSlot(e));
  }

  /** The new form, before anything is drawn into it. */
  predicate EmptyForm(store: Store, f: nat) {
    store.Valid() && f in store.objects
    && store.At(f).Stream? && store.At(f).ops == [] && store.At(f).dict.resources == map[]
  }

  /** Every older object is as it was, and the names of the form are those of annotations drawn so far. */
  lemma {:induction false} DrawnFrame(store: Store, f: nat, entries: seq<Entry>, k: nat)
    requires EmptyForm(store, f) && k <= |entries| && AllAnnotations(entries) && SlotsBelow(entries, f)
    ensures var after := DrawUpTo(store, f, entries, k);
      && FormInvariant(after, f, k)
      && SameExcept(store, after, f) && store.last <= after.last
  {
    if k > 0 {
      DrawnFrame(store, f, entries, k - 1);
      hide DrawOne, AppearanceSlot, FormInvariant;
      DrawOneFrame(DrawUpTo(store, f, entries, k - 1), f, k - 1, entries[k - 1]);
    }
  }

  /** The names of a drawn form are F and a number below that of the annotations. */
  lemma DrawnNames(store: Store, f: nat, entries: seq<Entry>, k: nat, name: string) returns (i: nat)
    requires EmptyForm(store, f) && k <= |entries| && AllAnnotations(entries) && SlotsBelow(entries, f)
    requires name in DrawUpTo(store, f, entries, k).At(f).dict.resources
    ensures i < k && name == "F" + Decimal(i)
  {
    DrawnFrame(store, f, entries, k);
    i :| i < k && name == FormName(i);
  }

  lemma {:induction false} DrawnKeepsBox(store: Store, f: nat, entries: seq<Entry>, k: nat)
    requires k <= |entries| && AllAnnotations(entries) && store.At(f).Stream? && f <= store.last
    ensures DrawUpTo(store, f, entries, k).At(f).dict.(resources := map[]) == store.At(f).dict.(resources := map[])
  {
    if k > 0 {
      DrawnKeepsBox(store, f, entries, k - 1);
      hide Appearance, AppearanceSlot, Placed;
    }
  }

  /** The form of the first k annotations paints their appearance streams, in their order, each under its own
      transformation, and leaves the graphics state as it was. */
  lemma {:induction false} FormPaintsAnnotations(store: Store, f: nat, entries: seq<Entry>, k: nat, s: State)
    requires EmptyForm(store, f) && k <= |entries| && AllAnnotations(entries) && SlotsBelow(entries, f)
    ensures var after := DrawUpTo(store, f, entries, k);
      && Run(after.At(f).ops, Fresh(s)).machine == Fresh(s)
      && UsesKnown(after.At(f).dict.resources, Run(after.At(f).ops, Fresh(s)).events)
      && FormPaints(after, f, s) == DueUpTo(store, entries, k, s)
  {
    if k > 0 {
      FormPaintsAnnotations(store, f, entries, k - 1, s);
      DrawnFrame(store, f, entries, k - 1);
      var (before, e) := (DrawUpTo(store, f, entries, k - 1), entries[k - 1]);
      hide Run, Due, FormPaints, DrawOne, UsesKnown, AppearanceSlot, FormInvariant, SameExcept, Store.At, Store.Valid;
      DrawOnePaints(before, f, k - 1, e, s);
      DueFrame(store, before, f, e, s);
    }
  }

  /** Each appearance that is painted with a finite fit covers exactly its annotation's rectangle. */
  lemma AppearanceCoversAnnotation(store: Store, e: Entry)
    requires e.Annotation? && Appearance(store, e).Some?
    ensures var appearance := Appearance(store, e).value;
      var (box, form) := (BoxOf(appearance.dict), appearance.dict.matrix);
      match Placed(e, appearance)
      case Finite(m) => form.Concat(m).TransformRect(box) == e.rect.Normalize()
      case NotFinite => !Invertible(box, form)
  {
    var appearance := Appearance(store, e).value;
    var (box, form) := (BoxOf(appearance.dict), appearance.dict.matrix);
    if Invertible(box, form) {
      NormalizeTwice(e.rect);
      hide FitMatrix, Invertible, BoxOf, Rect.Normalize, Matrix.Concat, Matrix.TransformRect;
      FitsExactly(e.rect.Normalize(), box, form);
    }
  }

  lemma NormalizeTwice(r: Rect)
    ensures r.Normalize().Normalize() == r.Normalize()
  {
  }

  // ---------- What is painted for an annotation, told by its own entries ----------

  /** The box of an appearance, its Rect entry deciding over its BBox, has neither width nor height zero. */
  predicate HasArea(dict: Dict) {
    match (dict.rect, dict.box)
    case (Some(r), _) => r.left != r.right && r.bottom != r.top
    case (None, Some(r)) => r.left != r.right && r.bottom != r.top
    case (None, None) => false
  }

  /** Exactly the stream that the slot stands for is painted, if it has an area; nothing otherwise. */
  predicate PaintsSlot(painted: seq<(Object, Transform)>, store: Store, slot: Slot) {
    match slot
    case NotStream => painted == []
    case Inline(dict, ops) => PaintsStream(painted, Stream(dict, ops))
    case At(n) =>
      if n in store.objects && store.objects[n].Stream? then PaintsStream(painted, store.objects[n]) else painted == []
  }

  predicate PaintsStream(painted: seq<(Object, Transform)>, stream: Object)
    requires stream.Stream?
  {
    if HasArea(stream.dict) then |painted| == 1 && painted[0].0 == stream else painted == []
  }

  predicate DistinctStates(entries: seq<(string, Slot)>) {
    forall i, j :: 0 <= i < j < |entries| ==> entries[i].0 != entries[j].0
  }

  lemma {:induction false} FoundByName(entries: seq<(string, Slot)>, state: string, slot: Slot)
    requires DistinctStates(entries) && (state, slot) in entries
    ensures Find(entries, state) == slot
  {
    if entries[0] != (state, slot) { FoundByName(entries[1..], state, slot); }
  }

  lemma {:induction false} NotFoundByName(entries: seq<(string, Slot)>, state: string)
    requires forall slot :: (state, slot) !in entries
    ensures Find(entries, state) == NotStream
  {
    if entries != [] {
      assert (entries[0].0, entries[0].1) in entries;
      assert forall x :: x in entries[1..] ==> x in entries;
      NotFoundByName(entries[1..], state);
    }
  }

  lemma PaintsItsSlot(store: Store, f: nat, e: Entry, s: State)
    requires EmptyForm(store, f) && e.Annotation? && SlotsBelow([e], f)
    ensures PaintsSlot(FormPaints(DrawUpTo(store, f, [e], 1), f, s), store, AppearanceSlot(e))
  {
    FormPaintsAnnotations(store, f, [e], 1, s);
    hide FormPaints, DrawUpTo, AppearanceSlot, Placed, Run, UsesKnown;
    assert DueUpTo(store, [e], 1, s) == DueUpTo(store, [e], 0, s) + Due(store, e, s);
    assert DueUpTo(store, [e], 1, s) == Due(store, e, s);
    var stream := StreamOf(store, AppearanceSlot(e));
    if stream.Some? { AreaIff(stream.value.dict); }
    hide BoxOf, HasArea;
  }

  lemma AreaIff(dict: Dict)
    ensures HasArea(dict) <==> !BoxOf(dict).IsEmpty()
  {
  }

  /** A form drawn for one annotation paints the stream of its normal appearance. When that has states, it is the one
      that the appearance state names, none when it names none, and the first when there is no appearance state. */
  lemma PaintsNamedState(store: Store, f: nat, e: Entry, s: State)
    requires EmptyForm(store, f) && e.Annotation? && SlotsBelow([e], f)
    requires e.normal.States? ==> DistinctStates(e.normal.entries)
    ensures var painted := FormPaints(DrawUpTo(store, f, [e], 1), f, s);
      match e.normal
      case Missing => painted == []
      case One(slot) => PaintsSlot(painted, store, slot)
      case States(entries) =>
        && (forall slot :: e.state != "" && (e.state, slot) in entries ==> PaintsSlot(painted, store, slot))
        && (e.state != "" && (forall slot :: (e.state, slot) !in entries) ==> painted == [])
        && (e.state == "" ==> if entries == [] then painted == [] else PaintsSlot(painted, store, entries[0].1))
  {
    PaintsItsSlot(store, f, e, s);
    hide FormPaints, DrawUpTo, PaintsStream;
    if e.normal.States? && e.state != "" {
      var entries := e.normal.entries;
      forall slot | (e.state, slot) in entries ensures Find(entries, e.state) == slot {
        FoundByName(entries, e.state, slot);
      }
      if forall slot :: (e.state, slot) !in entries { NotFoundByName(entries, e.state); }
    }
  }

  /** The box that decides where an appearance is placed. */
  function PlacingBox(dict: Dict): Rect
    requires HasArea(dict)
  {
    (if dict.rect.Some? then dict.rect.value else dict.box.value).Normalize()
  }

  /** What is painted for an annotation covers exactly its rectangle, whatever the form's own matrix does to the box,
      unless the image of the box has no width or height, and then the transformation is not finite. */
  lemma PaintedCoversAnnotation(store: Store, f: nat, e: Entry, s: State)
    requires EmptyForm(store, f) && e.Annotation? && SlotsBelow([e], f)
    ensures var painted := FormPaints(DrawUpTo(store, f, [e], 1), f, s);
      painted != [] ==>
        && painted[0].0.Stream? && HasArea(painted[0].0.dict)
        && var (box, matrix) := (PlacingBox(painted[0].0.dict), painted[0].0.dict.matrix);
           var image := matrix.TransformRect(box);
           if image.left < image.right && image.bottom < image.top then
             exists m :: painted[0].1 == Finite(m).Then(s.ctm)
                         && matrix.Concat(m).TransformRect(box) == e.rect.Normalize()
           else painted[0].1 == NotFinite
  {
    FormPaintsAnnotations(store, f, [e], 1, s);
    hide FormPaints, DrawUpTo, AppearanceSlot, Run, UsesKnown;
    assert DueUpTo(store, [e], 1, s) == DueUpTo(store, [e], 0, s) + Due(store, e, s);
    assert DueUpTo(store, [e], 1, s) == Due(store, e, s);
    if Appearance(store, e).Some? {
      var appearance := Appearance(store, e).value;
      AppearanceCoversAnnotation(store, e);
      AreaIff(appearance.dict);
      assert BoxOf(appearance.dict) == PlacingBox(appearance.dict);
      hide BoxOf, FitMatrix, HasArea, PlacingBox, Matrix.TransformRect, Matrix.Concat, Rect.Normalize;
      if Placed(e, appearance).Finite? { assert Placed(e, appearance) == Finite(Placed(e, appearance).m); }
    }
  }
}
