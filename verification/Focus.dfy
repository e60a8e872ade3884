/** Which annotation has the focus, while handlers and embedder callbacks may change the focus again, destroy
    annotations and remove or create page views in the middle of every operation. */
module Focus {
  import opened Basics

  /** An annotation object: the page whose view owns it, and whether it is a text or combo field. */
  datatype Annot = Annot(page: nat, textual: bool)

  datatype View = View(serial: nat, valid: bool, locked: bool, dying: bool)

  /** The live annotations, the page views by page, and the focus. Annotations and views are numbered from one
      counter, so that no number is ever used again; an observed pointer is a number, null once it is not live.
      nullTold says that SendOnFocusChange has been called with a null pointer, which it does not expect. */
  datatype State = State(shutdown: bool, annots: map<nat, Annot>, pages: map<nat, View>, focus: Option<nat>, next: nat,
                         nullTold: bool)

  /** How a handler answers: what it does first, whether it agrees, and what the callback after it does. */
  datatype Reply = Reply(ops: seq<Op>, accept: bool, after: seq<Op>)

  /** An annotation loaded into a new view, and what its OnLoad does. */
  datatype Load = Load(textual: bool, onLoad: seq<Op>)

  /** The operations, each with all that handlers do while it lasts. */
  datatype Op =
    | SetFocus(annot: Option<nat>, kill: Reply, take: Reply)
    | KillFocus(kill: Reply)
    | DestroyAnnot(dead: nat)
    | SetValid(page: nat, valid: bool)
    | CreatePageView(page: nat, loads: seq<Load>)
    | RemovePageView(page: nat, kill: Reply)

  const INITIAL := State(false, map[], map[], None, 0, false)

  function Observed(st: State, a: nat): Option<nat> { if a in st.annots then Some(a) else None }

  function Pointer(st: State, p: Option<nat>): Option<nat> { if p.Some? then Observed(st, p.value) else None }

  predicate OnPage(st: State, a: nat, page: nat) { a in st.annots && st.annots[a].page == page }

  predicate FocusOnPage(st: State, page: nat) { st.focus.Some? && OnPage(st, st.focus.value, page) }

  predicate ViewValid(st: State, a: nat) {
    a in st.annots && st.annots[a].page in st.pages && st.pages[st.annots[a].page].valid
  }

  /** Some annotations go; the focus is an observed pointer. */
  function Destroyed(st: State, annots: map<nat, Annot>): State {
    st.(annots := annots, focus := if st.focus.Some? && st.focus.value !in annots then None else st.focus)
  }

  function WithoutPage(annots: map<nat, Annot>, page: nat): map<nat, Annot> {
    map a | a in annots && annots[a].page != page :: annots[a]
  }

  /** The view goes out of the map, and its annotations with it. */
  function Erased(st: State, page: nat): State {
    Destroyed(st.(pages := st.pages - {page}), WithoutPage(st.annots, page))
  }

  function Marked(st: State, page: nat): State
    requires page in st.pages
  {
    st.(pages := st.pages[page := st.pages[page].(dying := true)])
  }

  /** A new view is locked until its annotations are loaded. */
  function Created(st: State, page: nat): State {
    st.(pages := st.pages[page := View(st.next, false, true, false)], next := st.next + 1)
  }

  function Run(ops: seq<Op>, st: State): State
    decreases ops, 0
  {
    if ops == [] then st else Run(ops[1..], Do(ops[0], st))
  }

  function Do(op: Op, st: State): State
    decreases op, 1
  {
    match op
    case SetFocus(_, _, _) => FocusSet(op, st).0
    case KillFocus(kill) => Killed(kill, st).0
    case DestroyAnnot(a) => Destroyed(st, st.annots - {a})
    case SetValid(page, valid) =>
      if page in st.pages then st.(pages := st.pages[page := st.pages[page].(valid := valid)]) else st
    case CreatePageView(page, loads) =>
      if page in st.pages then st
      else
        Unlocked(LoadAnnots(loads, page, Created(st, page)), page)
    case RemovePageView(page, kill) =>
      if page !in st.pages || st.pages[page].locked || st.pages[page].dying then st
      else
        var marked := Marked(st, page);
        Erased(if FocusOnPage(marked, page) then Killed(kill, marked).0 else marked, page)
  }

  function Unlocked(st: State, page: nat): State {
    if page in st.pages then st.(pages := st.pages[page := st.pages[page].(locked := false)]) else st
  }

  function Loaded(st: State, page: nat, textual: bool): State {
    st.(annots := st.annots[st.next := Annot(page, textual)], next := st.next + 1)
  }

  function LoadAnnots(loads: seq<Load>, page: nat, st: State): State
    decreases loads, 0
  {
    if loads == [] then st
    else LoadAnnots(loads[1..], page, Run(loads[0].onLoad, Loaded(st, page, loads[0].textual)))
  }

  function Killed(kill: Reply, st: State): (State, bool)
    decreases kill, 0
  {
    if st.focus.None? then (st, false)
    else
      var a := st.focus.value;
      var handled := Run(kill.ops, st.(focus := None));
      if !kill.accept then (handled.(focus := Observed(handled, a)), false)
      else if a !in handled.annots then (handled, false)
      else
        var told := if handled.annots[a].textual then Run(kill.after, handled) else handled;
        (told, told.focus.None?)
  }

  function FocusSet(op: Op, st: State): (State, bool)
    requires op.SetFocus?
    decreases op, 0
  {
    var wanted := Pointer(st, op.annot);
    if st.shutdown then (st, false)
    else if st.focus == wanted then (st, true)
    else
      var (killed, done) := if st.focus.Some? then Killed(op.kill, st) else (st, true);
      if !done then (killed, false)
      else if wanted.None? || wanted.value !in killed.annots then (killed, false)
      else if !ViewValid(killed, wanted.value) || killed.focus.Some? then (killed, false)
      else
        var a := wanted.value;
        var handled := Run(op.take.ops, killed);
        if !op.take.accept || handled.focus.Some? then (handled, false)
        else if a !in handled.annots then (handled.(nullTold := true), true)
        else
          var focused := handled.(focus := Some(a));
          (if ViewValid(focused, a) then Run(op.take.after, focused) else focused, true)
  }

  class FormFillEnvironment {
    var shutdown: bool
    var annots: map<nat, Annot>
    var pageMap: map<nat, View>
    var focusAnnot: Option<nat>
    var next: nat
    var nullTold: bool

    constructor ()
      ensures Now() == INITIAL
    {
      shutdown, annots, pageMap, focusAnnot, next, nullTold := false, map[], map[], None, 0, false;
    }

    function Now(): State
      reads this
    {
      State(shutdown, annots, pageMap, focusAnnot, next, nullTold)
    }

    /** Annotations are destroyed, and the pointers that observe them reset. */
    method Destroy(left: map<nat, Annot>)
      modifies this
      ensures Now() == Destroyed(old(Now()), left)
    {
      annots := left;
      if focusAnnot.Some? && focusAnnot.value !in left { focusAnnot := None; }
    }

    /** What a handler or the embedder calls, one operation after the other. */
    method Handle(ops: seq<Op>)
      requires Inv(Now())
      modifies this
      ensures Now() == Run(ops, old(Now())) && Keeps(old(Now()), Now())
      decreases ops, 0
    {
      hide Inv, Later, Do;
      RunKeeps(ops, Now());
      if ops != [] {
        Call(ops[0]);
        Handle(ops[1..]);
      }
    }

    method Call(op: Op)
      requires Inv(Now())
      modifies this
      ensures Now() == Do(op, old(Now())) && Keeps(old(Now()), Now())
      decreases op, 2
    {
      DoKeeps(op, Now());
      hide Inv, Later;
      match op {
        case SetFocus(annot, kill, take) => var done := SetFocusAnnot(op);
        case KillFocus(kill) => var done := KillFocusAnnot(kill);
        case DestroyAnnot(a) => Destroy(annots - {a});
        case SetValid(page, valid) =>
          if page in pageMap { pageMap := pageMap[page := pageMap[page].(valid := valid)]; }
        case CreatePageView(page, loads) => GetOrCreatePageView(page, loads);
        case RemovePageView(page, kill) => RemovePageView(page, kill);
      }
    }

    method KillFocusAnnot(kill: Reply) returns (done: bool)
      requires Inv(Now())
      modifies this
      ensures (Now(), done) == Killed(kill, old(Now())) && Keeps(old(Now()), Now())
      decreases kill, 0
    {
      KillKeeps(kill, Now());
      if focusAnnot.None? { return false; }
      var a := focusAnnot.value;
      focusAnnot := None;
      Handle(kill.ops);
      if !kill.accept {
        focusAnnot := Observed(Now(), a);
        return false;
      }
      if a !in annots { return false; }
      if annots[a].textual { Handle(kill.after); }
      done := focusAnnot.None?;
    }

    method SetFocusAnnot(op: Op) returns (done: bool)
      requires op.SetFocus? && Inv(Now())
      modifies this
      ensures (Now(), done) == FocusSet(op, old(Now())) && Keeps(old(Now()), Now())
      decreases op, 0
    {
      SetKeeps(op, Now());
      if shutdown { return false; }
      var wanted := Pointer(Now(), op.annot);
      if focusAnnot == wanted { return true; }
      if focusAnnot.Some? {
        var killed := KillFocusAnnot(op.kill);
        if !killed { return false; }
      }
      if wanted.None? || wanted.value !in annots { return false; }
      var a := wanted.value;
      if !pageMap[annots[a].page].valid { return false; }
      if focusAnnot.Some? { return false; }
      Handle(op.take.ops);
      if !op.take.accept { return false; }
      if focusAnnot.Some? { return false; }
      focusAnnot := Observed(Now(), a);
      if focusAnnot.None? {
        nullTold := true;
        return true;
      }
      if pageMap[annots[a].page].valid { Handle(op.take.after); }
      done := true;
    }

    method GetOrCreatePageView(page: nat, loads: seq<Load>)
      requires Inv(Now())
      modifies this
      ensures Now() == Do(CreatePageView(page, loads), old(Now())) && Keeps(old(Now()), Now())
      decreases loads, 1
    {
      DoKeeps(CreatePageView(page, loads), Now());
      if page in pageMap { return; }
      CreateKeeps(page, loads, Now());
      pageMap := pageMap[page := View(next, false, true, false)];
      next := next + 1;
      hide Inv, Later, LoadAnnots;
      LoadFXAnnots(page, loads);
      pageMap := pageMap[page := pageMap[page].(locked := false)];
    }

    method LoadFXAnnots(page: nat, loads: seq<Load>)
      requires Inv(Now()) && page in pageMap && Pinned(Now(), page)
      modifies this
      ensures Now() == LoadAnnots(loads, page, old(Now())) && Keeps(old(Now()), Now())
      decreases loads, 0
    {
      hide Inv, Later, Run;
      LoadKeeps(loads, page, Now());
      if loads != [] {
        LoadedKeeps(page, loads[0].textual, Now());
        annots := annots[next := Annot(page, loads[0].textual)];
        next := next + 1;
        ghost var loaded := Now();
        Handle(loads[0].onLoad);
        StaysPinned(loaded, Now(), page);
        LoadFXAnnots(page, loads[1..]);
      }
    }

    /** The entry found at the start is still in the map when it is erased. */
    method RemovePageView(page: nat, kill: Reply)
      requires Inv(Now())
      modifies this
      ensures Now() == Do(Op.RemovePageView(page, kill), old(Now())) && Keeps(old(Now()), Now())
      decreases kill, 1
    {
      DoKeeps(Op.RemovePageView(page, kill), Now());
      if page !in pageMap { return; }
      if pageMap[page].locked || pageMap[page].dying { return; }
      pageMap := pageMap[page := pageMap[page].(dying := true)];
      ghost var (marked, entry) := (Now(), pageMap[page].serial);
      if focusAnnot.Some? && OnPage(Now(), focusAnnot.value, page) {
        var done := KillFocusAnnot(kill);
        StaysPinned(marked, Now(), page);
      }
      assert page in pageMap && pageMap[page].serial == entry;
      pageMap := pageMap - {page};
      Destroy(WithoutPage(annots, page));
    }
  }

  /** Every live annotation has its view, the focus is null or live, and the numbers are used up to the next. */
  ghost predicate Inv(st: State) {
    && (forall a :: a in st.annots ==> a < st.next && st.annots[a].page in st.pages)
    && (st.focus.Some? ==> st.focus.value in st.annots)
    && (forall page :: page in st.pages ==> st.pages[page].serial < st.next)
  }

  /** A view that cannot be removed: its annotations are being loaded, or it is being removed. */
  predicate Pinned(st: State, page: nat) {
    page in st.pages && (st.pages[page].locked || st.pages[page].dying)
  }

  /** From one state to a later one: pinned views stay the views they are and stay pinned as they are; no annotation
      is on another page than it was; nothing that has gone comes back; what the client was told stays told. */
  ghost predicate Later(st: State, st': State) {
    && st.next <= st'.next
    && (st.nullTold ==> st'.nullTold)
    && (forall page :: Pinned(st, page) ==>
          page in st'.pages && st'.pages[page].serial == st.pages[page].serial
          && st'.pages[page].locked == st.pages[page].locked && st'.pages[page].dying == st.pages[page].dying)
    && (forall a :: a in st'.annots && a < st.next ==> a in st.annots && st'.annots[a] == st.annots[a])
    && (forall page :: page in st'.pages && st'.pages[page].serial < st.next ==>
          page in st.pages && st.pages[page].serial == st'.pages[page].serial)
  }

  lemma LaterStill(a: State, b: State, c: State)
    requires Later(a, b) && Later(b, c)
    ensures Later(a, c)
  {
    forall page | Pinned(a, page)
      ensures page in c.pages && c.pages[page].serial == a.pages[page].serial
           && c.pages[page].locked == a.pages[page].locked && c.pages[page].dying == a.pages[page].dying
    {
      assert Pinned(b, page);
    }
  }

  /** Invariant now, and in this way later than before. */
  ghost predicate Keeps(st: State, st': State) { Inv(st') && Later(st, st') }

  lemma KeepsStill(a: State, b: State, c: State)
    requires Keeps(a, b) && Keeps(b, c)
    ensures Keeps(a, c)
  {
    LaterStill(a, b, c);
  }

  lemma FocusMoves(st: State, focus: Option<nat>)
    requires Inv(st) && (focus.Some? ==> focus.value in st.annots)
    ensures Keeps(st, st.(focus := focus))
  {
  }

  lemma TellingKeeps(st: State)
    requires Inv(st)
    ensures Keeps(st, st.(nullTold := true))
  {
  }

  lemma {:induction false} RunKeeps(ops: seq<Op>, st: State)
    requires Inv(st)
    ensures Keeps(st, Run(ops, st))
    decreases ops, 0
  {
    if ops != [] {
      var next := Do(ops[0], st);
      DoKeeps(ops[0], st);
      RunKeeps(ops[1..], next);
      KeepsStill(st, next, Run(ops[1..], next));
    }
  }

  lemma LoadedKeeps(page: nat, textual: bool, st: State)
    requires Inv(st) && page in st.pages
    ensures Keeps(st, Loaded(st, page, textual)) && Loaded(st, page, textual).pages == st.pages
  {
  }

  lemma StaysPinned(a: State, b: State, page: nat)
    requires Later(a, b) && Pinned(a, page)
    ensures Pinned(b, page) && b.pages[page].serial == a.pages[page].serial
  {
  }

  lemma {:induction false} LoadKeeps(loads: seq<Load>, page: nat, st: State)
    requires Inv(st) && Pinned(st, page)
    ensures Keeps(st, LoadAnnots(loads, page, st))
    decreases loads, 0
  {
    if loads != [] {
      hide Inv, Later, Loaded;
      var loaded := Loaded(st, page, loads[0].textual);
      var handled := Run(loads[0].onLoad, loaded);
      LoadedKeeps(page, loads[0].textual, st);
      RunKeeps(loads[0].onLoad, loaded);
      KeepsStill(st, loaded, handled);
      StaysPinned(st, handled, page);
      LoadKeeps(loads[1..], page, handled);
      KeepsStill(st, handled, LoadAnnots(loads[1..], page, handled));
    } else {
      FocusMoves(st, st.focus);
    }
  }

  lemma {:induction false} KillKeeps(kill: Reply, st: State)
    requires Inv(st)
    ensures Keeps(st, Killed(kill, st).0)
    decreases kill, 0
  {
    FocusMoves(st, st.focus);
    FocusMoves(st, None);
    if st.focus.Some? {
      hide Inv, Later;
      var lost := st.(focus := None);
      var handled := Run(kill.ops, lost);
      RunKeeps(kill.ops, lost);
      KeepsStill(st, lost, handled);
      if !kill.accept {
        FocusMoves(handled, Observed(handled, st.focus.value));
        KeepsStill(st, handled, Killed(kill, st).0);
      } else {
        RunKeeps(kill.after, handled);
        KeepsStill(st, handled, Run(kill.after, handled));
      }
    }
  }

  lemma {:induction false} SetKeeps(op: Op, st: State)
    requires op.SetFocus? && Inv(st)
    ensures Keeps(st, FocusSet(op, st).0)
    decreases op, 0
  {
    FocusMoves(st, st.focus);
    if !st.shutdown && st.focus != Pointer(st, op.annot) {
      hide Inv, Later, Killed;
      KillKeeps(op.kill, st);
      var killed := if st.focus.Some? then Killed(op.kill, st).0 else st;
      var handled := Run(op.take.ops, killed);
      RunKeeps(op.take.ops, killed);
      KeepsStill(st, killed, handled);
      TellingKeeps(handled);
      KeepsStill(st, handled, handled.(nullTold := true));
      if op.annot.Some? && op.annot.value in handled.annots {
        var focused := handled.(focus := op.annot);
        FocusMoves(handled, op.annot);
        KeepsStill(st, handled, focused);
        RunKeeps(op.take.after, focused);
        KeepsStill(st, focused, Run(op.take.after, focused));
      }
    }
  }

  /** A removal by itself: the page was not pinned at the start, and is erased at the end. */
  lemma ErasedKeeps(st: State, page: nat, last: State)
    requires Inv(st) && page in st.pages && !Pinned(st, page) && Inv(Marked(st, page)) && Keeps(Marked(st, page), last)
    ensures Keeps(st, Erased(last, page))
  {
    var (marked, after) := (Marked(st, page), Erased(last, page));
    forall p | Pinned(st, p)
      ensures p in after.pages && after.pages[p].serial == st.pages[p].serial
           && after.pages[p].locked == st.pages[p].locked && after.pages[p].dying == st.pages[p].dying
    {
      assert Pinned(marked, p);
    }
  }

  lemma {:induction false} RemoveKeeps(page: nat, kill: Reply, st: State)
    requires Inv(st) && page in st.pages && !Pinned(st, page)
    ensures Keeps(st, Do(RemovePageView(page, kill), st))
    decreases kill, 1
  {
    var marked := Marked(st, page);
    assert Keeps(marked, marked);
    hide Inv, Later, Killed, Erased;
    KillKeeps(kill, marked);
    ErasedKeeps(st, page, if FocusOnPage(marked, page) then Killed(kill, marked).0 else marked);
  }

  lemma UnlockedKeeps(st: State, page: nat, last: State)
    requires Inv(st) && page !in st.pages && Inv(Created(st, page)) && Keeps(Created(st, page), last)
    ensures Keeps(st, Unlocked(last, page)) && page in last.pages
  {
    var (created, after) := (Created(st, page), Unlocked(last, page));
    assert Pinned(created, page);
    forall p | Pinned(st, p)
      ensures p in after.pages && after.pages[p].serial == st.pages[p].serial
           && after.pages[p].locked == st.pages[p].locked && after.pages[p].dying == st.pages[p].dying
    {
      assert Pinned(created, p);
    }
  }

  lemma {:induction false} CreateKeeps(page: nat, loads: seq<Load>, st: State)
    requires Inv(st) && page !in st.pages
    ensures Inv(Created(st, page)) && Pinned(Created(st, page), page)
    ensures Keeps(st, Do(CreatePageView(page, loads), st)) && page in LoadAnnots(loads, page, Created(st, page)).pages
    decreases loads, 1
  {
    var created := Created(st, page);
    assert Inv(created) && Pinned(created, page);
    hide Inv, Later, Unlocked;
    LoadKeeps(loads, page, created);
    UnlockedKeeps(st, page, LoadAnnots(loads, page, created));
  }

  lemma {:induction false} DoKeeps(op: Op, st: State)
    requires Inv(st)
    ensures Keeps(st, Do(op, st))
    decreases op, 2
  {
    FocusMoves(st, st.focus);
    match op
    case SetFocus(_, _, _) => SetKeeps(op, st);
    case KillFocus(kill) => KillKeeps(kill, st);
    case DestroyAnnot(a) =>
    case SetValid(page, valid) =>
    case CreatePageView(page, loads) => if page !in st.pages { CreateKeeps(page, loads, st); }
    case RemovePageView(page, kill) => if page in st.pages && !Pinned(st, page) { RemoveKeeps(page, kill, st); }
  }

  /** In every run the focus is null or a live annotation, which a view owns. */
  lemma FocusIsLive(ops: seq<Op>)
    ensures var st := Run(ops, INITIAL);
      st.focus.Some? ==> st.focus.value in st.annots && st.annots[st.focus.value].page in st.pages
  {
    RunKeeps(ops, INITIAL);
  }

  /** A removal that passes its guards leaves no view of the page, none of its annotations and no focus on it,
      whatever the kill-focus handler did and even when it refused. */
  lemma RemovedPageHasNoFocus(page: nat, kill: Reply, st: State)
    requires Inv(st) && page in st.pages && !Pinned(st, page)
    ensures var after := Do(RemovePageView(page, kill), st);
      && page !in after.pages
      && (forall a :: OnPage(st, a, page) ==> a !in after.annots)
      && (forall a :: a in after.annots ==> after.annots[a].page != page)
      && !FocusOnPage(after, page)
      && (after.focus.Some? ==> after.focus.value in after.annots)
  {
    RemoveKeeps(page, kill, st);
    hide Killed;
    var after := Do(RemovePageView(page, kill), st);
    assert page !in after.pages;
    forall a: nat | OnPage(st, a, page) ensures a !in after.annots {
      assert a < st.next;
    }
  }

  /** Whatever happens while a view is loaded or removed, the view stays the one it is, and removing it again does
      nothing; so the map entry found at the start of a removal is still there at its end. */
  lemma ReentrantRemovalIsIgnored(st: State, page: nat, ops: seq<Op>, kill: Reply)
    requires Inv(st) && Pinned(st, page)
    ensures var during := Run(ops, st);
      && Pinned(during, page) && during.pages[page].serial == st.pages[page].serial
      && Do(RemovePageView(page, kill), during) == during
      && forall loads :: Do(CreatePageView(page, loads), during) == during
  {
    RunKeeps(ops, st);
    StaysPinned(st, Run(ops, st), page);
  }

  // ---------- Where the focus can be ----------

  /** The annotations that operations ask the focus for, at any depth. */
  function Asked(ops: seq<Op>): set<nat>
    decreases ops, 0
  {
    if ops == [] then {} else AskedBy(ops[0]) + Asked(ops[1..])
  }

  function AskedBy(op: Op): set<nat>
    decreases op, 1
  {
    match op
    case SetFocus(annot, kill, take) => (if annot.Some? then {annot.value} else {}) + AskedIn(kill) + AskedIn(take)
    case KillFocus(kill) => AskedIn(kill)
    case CreatePageView(_, loads) => AskedLoading(loads)
    case RemovePageView(_, kill) => AskedIn(kill)
    case _ => {}
  }

  function AskedIn(reply: Reply): set<nat>
    decreases reply, 0
  {
    Asked(reply.ops) + Asked(reply.after)
  }

  function AskedLoading(loads: seq<Load>): set<nat>
    decreases loads, 0
  {
    if loads == [] then {} else Asked(loads[0].onLoad) + AskedLoading(loads[1..])
  }

  /** The focus is null, or what it was, or one of those asked for. */
  predicate AmongAsked(focus: Option<nat>, before: Option<nat>, asked: set<nat>) {
    focus == None || focus == before || focus.value in asked
  }

  /** In every run, at any depth, the focus goes nowhere but where some operation asks for it. */
  lemma {:induction false} FocusOnlyWhereAsked(ops: seq<Op>, st: State)
    ensures AmongAsked(Run(ops, st).focus, st.focus, Asked(ops))
    decreases ops, 0
  {
    if ops != [] {
      DoWhereAsked(ops[0], st);
      FocusOnlyWhereAsked(ops[1..], Do(ops[0], st));
    }
  }

  lemma {:induction false} DoWhereAsked(op: Op, st: State)
    ensures AmongAsked(Do(op, st).focus, st.focus, AskedBy(op))
    decreases op, 2
  {
    match op
    case SetFocus(_, _, _) => SetFocusOutcome(op, st);
    case KillFocus(kill) => KillOutcome(kill, st);
    case CreatePageView(page, loads) => if page !in st.pages { LoadWhereAsked(loads, page, Created(st, page)); }
    case RemovePageView(page, kill) => if page in st.pages { KillOutcome(kill, Marked(st, page)); }
    case _ =>
  }

  lemma {:induction false} LoadWhereAsked(loads: seq<Load>, page: nat, st: State)
    ensures AmongAsked(LoadAnnots(loads, page, st).focus, st.focus, AskedLoading(loads))
    decreases loads, 1
  {
    if loads != [] {
      var loaded := Loaded(st, page, loads[0].textual);
      FocusOnlyWhereAsked(loads[0].onLoad, loaded);
      LoadWhereAsked(loads[1..], page, Run(loads[0].onLoad, loaded));
    }
  }

  /** After KillFocusAnnot, with any nesting: a refusal leaves the focus where it was, over anything the handler did,
      or null when the handler destroyed the annotation; an acceptance leaves it there only if the handler or the
      callback asks for that; and success means null. */
  lemma {:induction false} KillOutcome(kill: Reply, st: State)
    ensures var (after, done) := Killed(kill, st);
      && AmongAsked(after.focus, st.focus, AskedIn(kill))
      && (!kill.accept && st.focus.Some? ==> !done && after.focus == Observed(after, st.focus.value))
      && (kill.accept ==> AmongAsked(after.focus, None, AskedIn(kill)))
      && (done ==> after.focus == None)
    decreases kill, 0
  {
    if st.focus.Some? {
      var lost := st.(focus := None);
      FocusOnlyWhereAsked(kill.ops, lost);
      FocusOnlyWhereAsked(kill.after, Run(kill.ops, lost));
    }
  }

  /** After SetFocusAnnot, with any nesting. When it fails, the focus is null, where it was, or where a handler within
      asks for it: never at the annotation for the sake of this call. When it succeeds, the focus is at the
      annotation, or where the callback that tells of it asks for it, or null when the callback or the accepting
      handler destroyed the annotation. */
  lemma {:induction false} SetFocusOutcome(op: Op, st: State)
    requires op.SetFocus?
    ensures var (after, done) := FocusSet(op, st);
      && (!done ==> AmongAsked(after.focus, st.focus, AskedIn(op.kill) + AskedIn(op.take)))
      && (done ==> AmongAsked(after.focus, Pointer(st, op.annot), Asked(op.take.after)))
    decreases op, 1
  {
    if !st.shutdown && st.focus != Pointer(st, op.annot) {
      KillOutcome(op.kill, st);
      var killed := if st.focus.Some? then Killed(op.kill, st).0 else st;
      hide Killed;
      FocusOnlyWhereAsked(op.take.ops, killed);
      var handled := Run(op.take.ops, killed);
      FocusOnlyWhereAsked(op.take.after, handled.(focus := op.annot));
    }
  }

  /** A refusal while a page is removed keeps no focus at all: the page takes the annotation with it. */
  lemma RefusedRemovalLosesFocus(page: nat, kill: Reply, st: State)
    requires Inv(st) && page in st.pages && !Pinned(st, page) && FocusOnPage(st, page) && !kill.accept
    ensures Do(RemovePageView(page, kill), st).focus == None
  {
    var marked := Marked(st, page);
    KillOutcome(kill, marked);
    RemovedPageHasNoFocus(page, kill, st);
    var after := Do(RemovePageView(page, kill), st);
    assert after.focus.Some? ==> after.focus == st.focus;
  }

  /** A refusal inside a change of focus ends the change: the focus stays, unless its annotation is gone. */
  lemma RefusedChangeKeepsFocus(op: Op, st: State)
    requires op.SetFocus? && Inv(st) && st.focus.Some? && !op.kill.accept && !st.shutdown
    requires st.focus != Pointer(st, op.annot)
    ensures var (after, done) := FocusSet(op, st);
      !done && after.focus == Observed(after, st.focus.value) && after == Killed(op.kill, st).0
  {
    KillOutcome(op.kill, st);
  }

  predicate Silent(reply: Reply) { reply.ops == [] && reply.after == [] }

  /** With handlers that only answer: exactly when the focus changes, and what is left when it does not. The wanted
      annotation counts as null when it is gone. */
  lemma SilentFocusChangeIff(op: Op, st: State)
    requires op.SetFocus? && Inv(st) && Silent(op.kill) && Silent(op.take)
    ensures var (after, done) := FocusSet(op, st);
      var wanted := if op.annot.Some? && op.annot.value in st.annots then op.annot else None;
      && (done <==> !st.shutdown
                    && (st.focus == wanted
                        || (wanted.Some? && st.pages[st.annots[wanted.value].page].valid && op.take.accept
                            && (st.focus.Some? ==> op.kill.accept))))
      && after == st.(focus := if done then wanted
                               else if !st.shutdown && st.focus.Some? && op.kill.accept then None else st.focus)
  {
    var lost := st.(focus := None);
    assert Run(op.kill.ops, lost) == lost && Run(op.kill.after, lost) == lost;
    var killed := if st.focus.Some? then Killed(op.kill, st).0 else st;
    assert st.focus != Pointer(st, op.annot) ==> killed == if st.focus.Some? && op.kill.accept then lost else st;
    assert Run(op.take.ops, killed) == killed;
    var focused := killed.(focus := Pointer(st, op.annot));
    assert Run(op.take.after, focused) == focused;
  }

  /** The client is called back, whatever it does then: after an accepted kill for a text or combo field only, and
      after an accepted focus for every annotation of a valid view. */
  lemma ClientIsCalledBack(op: Op, a: nat, st: State)
    requires op.SetFocus? && Inv(st) && !st.shutdown && a in st.annots
    requires op.kill.ops == [] && op.kill.accept && op.take.ops == [] && op.take.accept
    ensures st.focus == Some(a) ==>
      Killed(op.kill, st).0 == if st.annots[a].textual then Run(op.kill.after, st.(focus := None)) else st.(focus := None)
    ensures st.focus == None && op.annot == Some(a) && st.pages[st.annots[a].page].valid ==>
      FocusSet(op, st) == (Run(op.take.after, st.(focus := Some(a))), true)
  {
  }

  /** Loading a page whose annotations do nothing as they load: the view is new, unlocked and not yet valid, and holds
      one new annotation for each load, of its kind; everything older is as it was. */
  lemma CreatedPageHolds(page: nat, loads: seq<Load>, st: State)
    requires Inv(st) && page !in st.pages && forall k :: 0 <= k < |loads| ==> loads[k].onLoad == []
    ensures var after := Do(CreatePageView(page, loads), st);
      && after.pages == st.pages[page := View(st.next, false, false, false)]
      && after.focus == st.focus && after.next == st.next + 1 + |loads|
      && (forall a: nat :: a < st.next ==>
            (a in after.annots <==> a in st.annots) && (a in st.annots ==> after.annots[a] == st.annots[a]))
      && (forall a: nat :: st.next <= a ==> (a in after.annots <==> st.next < a <= st.next + |loads|))
      && (forall k: nat :: k < |loads| ==>
            st.next + 1 + k in after.annots && after.annots[st.next + 1 + k] == Annot(page, loads[k].textual))
  {
    QuietLoads(loads, page, Created(st, page));
  }

  lemma {:induction false} QuietLoads(loads: seq<Load>, page: nat, st: State)
    requires forall k :: 0 <= k < |loads| ==> loads[k].onLoad == []
    requires forall a :: a in st.annots ==> a < st.next
    ensures var after := LoadAnnots(loads, page, st);
      && after == st.(annots := after.annots, next := st.next + |loads|)
      && (forall a: nat :: a < st.next ==>
            (a in after.annots <==> a in st.annots) && (a in st.annots ==> after.annots[a] == st.annots[a]))
      && (forall a: nat :: st.next <= a ==> (a in after.annots <==> a < st.next + |loads|))
      && (forall k: nat :: k < |loads| ==>
            st.next + k in after.annots && after.annots[st.next + k] == Annot(page, loads[k].textual))
    decreases |loads|
  {
    if loads != [] {
      var loaded := Loaded(st, page, loads[0].textual);
      assert Run(loads[0].onLoad, loaded) == loaded;
      QuietLoads(loads[1..], page, loaded);
      var after := LoadAnnots(loads[1..], page, loaded);
      forall k: nat | k < |loads|
        ensures st.next + k in after.annots && after.annots[st.next + k] == Annot(page, loads[k].textual)
      {
        if k > 0 { assert loads[1..][k - 1] == loads[k] && loaded.next + (k - 1) == st.next + k; }
      }
    }
  }

  /** Whether its page view is valid decides whether an annotation can get the focus, from no focus. */
  lemma ValidityDecides(page: nat, valid: bool, op: Op, st: State)
    requires op.SetFocus? && Inv(st) && !st.shutdown && st.focus == None && Silent(op.take) && op.take.accept
    requires op.annot.Some? && op.annot.value in st.annots && st.annots[op.annot.value].page == page
    ensures FocusSet(op, Do(SetValid(page, valid), st)).1 <==> valid
  {
    var after := Do(SetValid(page, valid), st);
    assert after.pages[page].valid == valid && after.annots == st.annots && after.focus == None;
    assert Run(op.take.ops, after) == after;
  }

  // ---------- When the client is told of a null annotation ----------

  /** The state in which a change of focus comes to its set-focus handler, if it gets so far. */
  function BeforeTake(op: Op, st: State): State
    requires op.SetFocus?
  {
    if st.focus.Some? then Killed(op.kill, st).0 else st
  }

  function AfterTake(op: Op, st: State): State
    requires op.SetFocus?
  {
    Run(op.take.ops, BeforeTake(op, st))
  }

  predicate ReachesTake(op: Op, st: State)
    requires op.SetFocus?
  {
    var wanted := Pointer(st, op.annot);
    && (st.focus.Some? ==> Killed(op.kill, st).1)
    && wanted.Some? && ViewValid(BeforeTake(op, st), wanted.value) && BeforeTake(op, st).focus.None?
  }

  /** Neither a handler of the call nor the callback after it, where they are called, has told of a null annotation. */
  predicate NestedTellNothing(op: Op, st: State)
    requires op.SetFocus?
  {
    !st.nullTold && (st.shutdown || st.focus == Pointer(st, op.annot) ||
      var after := AfterTake(op, st);
      && !BeforeTake(op, st).nullTold
      && (ReachesTake(op, st) ==>
            && !after.nullTold
            && (op.take.accept && after.focus.None? && ViewValid(after, op.annot.value) ==>
                  !Run(op.take.after, after.(focus := op.annot)).nullTold)))
  }

  /** When nothing nested in a call tells the client of a null annotation, the call itself does exactly when it
      succeeds in changing the focus to an annotation that its own set-focus handler has destroyed. */
  lemma NullToldIff(op: Op, st: State)
    requires op.SetFocus? && Inv(st) && NestedTellNothing(op, st)
    ensures var (after, done) := FocusSet(op, st);
      after.nullTold <==> done && st.focus != Pointer(st, op.annot) && op.annot.value !in AfterTake(op, st).annots
  {
    hide Killed, Run;
  }

  /** Nothing done here, at any depth, destroys the annotation by itself or with its page. */
  predicate Spares(ops: seq<Op>, a: nat)
    decreases ops, 0
  {
    ops == [] || (SparedBy(ops[0], a) && Spares(ops[1..], a))
  }

  predicate SparedBy(op: Op, a: nat)
    decreases op, 1
  {
    match op
    case SetFocus(_, kill, take) => SparedIn(kill, a) && SparedIn(take, a)
    case KillFocus(kill) => SparedIn(kill, a)
    case DestroyAnnot(dead) => dead != a
    case SetValid(_, _) => true
    case CreatePageView(_, loads) => SparedLoading(loads, a)
    case RemovePageView(_, _) => false
  }

  predicate SparedIn(reply: Reply, a: nat)
    decreases reply, 0
  {
    Spares(reply.ops, a) && Spares(reply.after, a)
  }

  predicate SparedLoading(loads: seq<Load>, a: nat)
    decreases loads, 0
  {
    loads == [] || (Spares(loads[0].onLoad, a) && SparedLoading(loads[1..], a))
  }

  lemma {:induction false} RunSpares(ops: seq<Op>, a: nat, st: State)
    requires a in st.annots && Spares(ops, a)
    ensures a in Run(ops, st).annots
    decreases ops, 0
  {
    if ops != [] {
      DoSpares(ops[0], a, st);
      RunSpares(ops[1..], a, Do(ops[0], st));
    }
  }

  lemma {:induction false} KillSpares(kill: Reply, a: nat, st: State)
    requires a in st.annots && SparedIn(kill, a)
    ensures a in Killed(kill, st).0.annots
    decreases kill, 0
  {
    if st.focus.Some? {
      var lost := st.(focus := None);
      RunSpares(kill.ops, a, lost);
      RunSpares(kill.after, a, Run(kill.ops, lost));
    }
  }

  lemma {:induction false} LoadSpares(loads: seq<Load>, page: nat, a: nat, st: State)
    requires a in st.annots && SparedLoading(loads, a)
    ensures a in LoadAnnots(loads, page, st).annots
    decreases loads, 0
  {
    if loads != [] {
      var loaded := Loaded(st, page, loads[0].textual);
      RunSpares(loads[0].onLoad, a, loaded);
      LoadSpares(loads[1..], page, a, Run(loads[0].onLoad, loaded));
    }
  }

  lemma {:induction false} DoSpares(op: Op, a: nat, st: State)
    requires a in st.annots && SparedBy(op, a)
    ensures a in Do(op, st).annots
    decreases op, 1
  {
    match op
    case SetFocus(_, kill, take) =>
      KillSpares(kill, a, st);
      RunSpares(take.ops, a, BeforeTake(op, st));
      RunSpares(take.after, a, AfterTake(op, st).(focus := op.annot));
    case KillFocus(kill) => KillSpares(kill, a, st);
    case CreatePageView(page, loads) => if page !in st.pages { LoadSpares(loads, page, a, Created(st, page)); }
    case _ =>
  }

  /** At any depth, a set-focus handler that accepts spares the annotation it accepts for. */
  predicate Careful(ops: seq<Op>)
    decreases ops, 0
  {
    ops == [] || (CarefulOp(ops[0]) && Careful(ops[1..]))
  }

  predicate CarefulOp(op: Op)
    decreases op, 1
  {
    match op
    case SetFocus(annot, kill, take) =>
      CarefulIn(kill) && CarefulIn(take) && (annot.Some? && take.accept ==> Spares(take.ops, annot.value))
    case KillFocus(kill) => CarefulIn(kill)
    case CreatePageView(_, loads) => CarefulLoading(loads)
    case RemovePageView(_, kill) => CarefulIn(kill)
    case _ => true
  }

  predicate CarefulIn(reply: Reply)
    decreases reply, 0
  {
    Careful(reply.ops) && Careful(reply.after)
  }

  predicate CarefulLoading(loads: seq<Load>)
    decreases loads, 0
  {
    loads == [] || (Careful(loads[0].onLoad) && CarefulLoading(loads[1..]))
  }

  /** Whatever else they do, handlers that spare what they accept for never have the client told of a null
      annotation, in any run. */
  lemma {:induction false} CarefulTellsNoNull(ops: seq<Op>, st: State)
    requires Careful(ops) && !st.nullTold
    ensures !Run(ops, st).nullTold
    decreases ops, 0
  {
    if ops != [] {
      CarefulOpTellsNoNull(ops[0], st);
      CarefulTellsNoNull(ops[1..], Do(ops[0], st));
    }
  }

  lemma {:induction false} CarefulKill(kill: Reply, st: State)
    requires CarefulIn(kill) && !st.nullTold
    ensures !Killed(kill, st).0.nullTold
    decreases kill, 0
  {
    if st.focus.Some? {
      var lost := st.(focus := None);
      CarefulTellsNoNull(kill.ops, lost);
      CarefulTellsNoNull(kill.after, Run(kill.ops, lost));
    }
  }

  lemma {:induction false} CarefulLoad(loads: seq<Load>, page: nat, st: State)
    requires CarefulLoading(loads) && !st.nullTold
    ensures !LoadAnnots(loads, page, st).nullTold
    decreases loads, 0
  {
    if loads != [] {
      var loaded := Loaded(st, page, loads[0].textual);
      CarefulTellsNoNull(loads[0].onLoad, loaded);
      CarefulLoad(loads[1..], page, Run(loads[0].onLoad, loaded));
    }
  }

  lemma {:induction false} CarefulOpTellsNoNull(op: Op, st: State)
    requires CarefulOp(op) && !st.nullTold
    ensures !Do(op, st).nullTold
    decreases op, 1
  {
    match op
    case SetFocus(annot, kill, take) =>
      CarefulKill(kill, st);
      CarefulTellsNoNull(take.ops, BeforeTake(op, st));
      CarefulTellsNoNull(take.after, AfterTake(op, st).(focus := annot));
      if annot.Some? && annot.value in BeforeTake(op, st).annots && take.accept {
        RunSpares(take.ops, annot.value, BeforeTake(op, st));
      }
    case KillFocus(kill) => CarefulKill(kill, st);
    case CreatePageView(page, loads) => if page !in st.pages { CarefulLoad(loads, page, Created(st, page)); }
    case RemovePageView(page, kill) => if page in st.pages { CarefulKill(kill, Marked(st, page)); }
    case _ =>
  }

  /** An accepting handler that destroys its own annotation: the call succeeds with the focus null, and the client is
      told of a null annotation. */
  lemma AcceptedButGone(st: State, a: nat)
    requires Inv(st) && !st.shutdown && st.focus == None && a in st.annots && ViewValid(st, a)
    ensures var op := SetFocus(Some(a), Reply([], true, []), Reply([DestroyAnnot(a)], true, []));
      FocusSet(op, st) == (Destroyed(st, st.annots - {a}).(nullTold := true), true)
  {
    var ops := [DestroyAnnot(a)];
    assert ops[1..] == [];
    assert Run(ops, st) == Destroyed(st, st.annots - {a});
  }
}
