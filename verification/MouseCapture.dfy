/** Mouse enter, move and exit callbacks of a page view whose handlers may load and destroy annotations, destroy the
    view, and move the mouse again, to any depth. */
module MouseCapture {
  import opened Basics

  /** The callbacks made, and the annotations that are destroyed between and during them. */
  datatype Event = Entered(a: nat) | Moved(a: nat) | Exited(a: nat) | Gone(dead: set<nat>)

  /** The view, its live annotations, numbered in the order of loading, what it believes to have captured, and the
      callbacks so far. */
  datatype State = State(alive: bool, live: set<nat>, next: nat, onWidget: bool, capture: Option<nat>, trace: seq<Event>)

  /** What happens to the page: a mouse move, with all that its handlers do; some annotations are destroyed; the view
      is destroyed, with all its annotations; an annotation is loaded. */
  datatype Step =
    | MouseMove(hit: Option<nat>, onExit: seq<Step>, onEnter: seq<Step>, onMove: seq<Step>)
    | Destroys(dead: set<nat>)
    | Closes
    | Loads

  const INITIAL := State(true, {}, 0, false, None, [])

  /** A pointer that observes an annotation, and is null when there is no such annotation any more. */
  function Observed(live: set<nat>, p: Option<nat>): Option<nat> {
    if p.Some? && p.value in live then p else None
  }

  function Destroyed(dead: set<nat>, st: State): State {
    var live := st.live - dead;
    st.(live := live, capture := Observed(live, st.capture), trace := st.trace + [Gone(dead)])
  }

  function Run(steps: seq<Step>, st: State): State
    decreases steps, 0
  {
    if steps == [] then st else Run(steps[1..], Does(steps[0], st))
  }

  function Does(s: Step, st: State): State
    decreases s, 1
  {
    if !st.alive then st
    else match s
      case MouseMove(_, _, _, _) => Move(s, st).0
      case Destroys(dead) => Destroyed(dead, st)
      case Closes => Destroyed(st.live, st).(alive := false)
      case Loads => st.(live := st.live + {st.next}, next := st.next + 1)
  }

  /** A callback and what its handler does. */
  function Calls(event: Event, handler: seq<Step>, st: State): State
    decreases handler, 1
  {
    Run(handler, st.(trace := st.trace + [event]))
  }

  function Exit(callExit: bool, handler: seq<Step>, st: State): State
    decreases handler, 2
  {
    var off := st.(onWidget := false);
    if off.capture.None? then off
    else if callExit then
      var called := Calls(Exited(off.capture.value), handler, off);
      if called.alive then called.(capture := None) else called
    else off.(capture := None)
  }

  function Enter(a: nat, handler: seq<Step>, st: State): State
    decreases handler, 2
  {
    Calls(Entered(a), handler, st.(onWidget := true, capture := Some(a)))
  }

  /** OnMouseMove over the annotation hit, and its result. */
  function Move(s: Step, st: State): (State, bool)
    requires s.MouseMove?
    decreases s, 0
  {
    var hit := Observed(st.live, s.hit);
    var left := if st.onWidget && st.capture != hit then Exit(true, s.onExit, st) else st;
    if !left.alive || Observed(left.live, hit).None? then (left, false)
    else
      var a := hit.value;
      var entered := if left.onWidget then left else Enter(a, s.onEnter, left);
      if !entered.alive then (entered, false)
      else if a !in entered.live then (Exit(false, s.onExit, entered), true)
      else (Calls(Moved(a), s.onMove, entered), true)
  }

  class PageView {
    var alive: bool
    var live: set<nat>
    var next: nat
    var onWidget: bool
    var captureWidget: Option<nat>
    ghost var trace: seq<Event>

    constructor ()
      ensures Now() == INITIAL
    {
      alive, live, next, onWidget, captureWidget, trace := true, {}, 0, false, None, [];
    }

    ghost function Now(): State
      reads this
    {
      State(alive, live, next, onWidget, captureWidget, trace)
    }

    method Destroy(dead: set<nat>)
      modifies this
      ensures Now() == Destroyed(dead, old(Now()))
    {
      trace := trace + [Gone(dead)];
      live := live - dead;
      if captureWidget.Some? && captureWidget.value !in live { captureWidget := None; }
    }

    /** What a handler does, one step after the other. */
    method Handle(steps: seq<Step>)
      modifies this
      ensures Now() == Run(steps, old(Now()))
      decreases steps, 0
    {
      if steps != [] {
        Happens(steps[0]);
        Handle(steps[1..]);
      }
    }

    method Happens(s: Step)
      modifies this
      ensures Now() == Does(s, old(Now()))
      decreases s, 1
    {
      if !alive { return; }
      match s {
        case MouseMove(_, _, _, _) => var handled := OnMouseMove(s);
        case Destroys(dead) => Destroy(dead);
        case Closes =>
          Destroy(live);
          alive := false;
        case Loads =>
          live := live + {next};
          next := next + 1;
      }
    }

    method EnterWidget(a: nat, handler: seq<Step>)
      modifies this
      ensures Now() == Enter(a, handler, old(Now()))
      decreases handler, 1
    {
      onWidget := true;
      captureWidget := Some(a);
      trace := trace + [Entered(a)];
      Handle(handler);
    }

    method ExitWidget(callExit: bool, handler: seq<Step>)
      modifies this
      ensures Now() == Exit(callExit, handler, old(Now()))
      decreases handler, 1
    {
      onWidget := false;
      if captureWidget.None? { return; }
      if callExit {
        trace := trace + [Exited(captureWidget.value)];
        Handle(handler);
        if !alive { return; }
      }
      captureWidget := None;
    }

    method OnMouseMove(s: Step) returns (handled: bool)
      requires s.MouseMove?
      modifies this
      ensures (Now(), handled) == Move(s, old(Now()))
      decreases s, 0
    {
      var hit := Observed(live, s.hit);
      if onWidget && captureWidget != hit { ExitWidget(true, s.onExit); }
      if !alive || hit.None? || hit.value !in live { return false; }
      if !onWidget {
        EnterWidget(hit.value, s.onEnter);
        if !alive { return false; }
        if hit.value !in live {
          ExitWidget(false, s.onExit);
          return true;
        }
      }
      trace := trace + [Moved(hit.value)];
      Handle(s.onMove);
      handled := true;
    }
  }

  // ---------- The rule for the callbacks ----------

  /** Which annotation, still alive, is entered after some callbacks; none when a callback breaks the rule. */
  datatype Verdict = Broken | Holds(entered: Option<nat>)

  function Judge(e: Event, entered: Option<nat>): Verdict {
    match e
    case Entered(a) => if entered.None? then Holds(Some(a)) else Broken
    case Moved(a) => if entered == Some(a) then Holds(entered) else Broken
    case Exited(a) => if entered == Some(a) then Holds(None) else Broken
    case Gone(dead) => Holds(if entered.Some? && entered.value in dead then None else entered)
  }

  /** The rule along a whole trace, from its last event backwards. */
  function Follows(trace: seq<Event>): Verdict {
    if trace == [] then Holds(None)
    else
      var before := Follows(trace[..|trace| - 1]);
      if before.Broken? then Broken else Judge(trace[|trace| - 1], before.entered)
  }

  lemma FollowsNext(trace: seq<Event>, e: Event)
    ensures Follows(trace + [e])
         == if Follows(trace).Broken? then Broken else Judge(e, Follows(trace).entered)
  {
    assert (trace + [e])[..|trace|] == trace;
  }

  /** What the view believes to be entered. */
  function Believed(st: State): Option<nat> { if st.onWidget then st.capture else None }

  /** The view believes to be entered what has been entered and not exited. */
  predicate Agrees(st: State) { Follows(st.trace) == Holds(Believed(st)) }

  /** Pointers are null once what they observe is gone, and what is entered is alive. */
  predicate Sound(st: State) {
    && (forall a :: a in st.live ==> a < st.next)
    && Observed(st.live, st.capture) == st.capture
    && (Follows(st.trace).Holds? ==> Observed(st.live, Follows(st.trace).entered) == Follows(st.trace).entered)
  }

  predicate Inv(st: State) { Agrees(st) && Sound(st) }

  lemma DestroyedKeeps(dead: set<nat>, st: State)
    requires Sound(st)
    ensures Sound(Destroyed(dead, st)) && (Agrees(st) ==> Agrees(Destroyed(dead, st)))
  {
    FollowsNext(st.trace, Gone(dead));
  }

  // ---------- Handlers that do not move the mouse, except in a move callback ----------

  predicate Moveless(steps: seq<Step>) { forall i :: 0 <= i < |steps| ==> !steps[i].MouseMove? }

  /** At any depth, only move handlers move the mouse: enter and exit handlers do not. */
  predicate Settled(steps: seq<Step>)
    decreases steps, 0
  {
    steps == [] || (SettledStep(steps[0]) && Settled(steps[1..]))
  }

  predicate SettledStep(s: Step)
    decreases s, 1
  {
    s.MouseMove? ==> Moveless(s.onExit) && Moveless(s.onEnter) && Settled(s.onMove)
  }

  lemma {:induction false} MovelessKeeps(steps: seq<Step>, st: State)
    requires Inv(st) && Moveless(steps)
    ensures Inv(Run(steps, st)) && Run(steps, st).onWidget == st.onWidget
    decreases steps
  {
    if steps != [] {
      hide Follows;
      DestroyedKeeps(if steps[0].Destroys? then steps[0].dead else st.live, st);
      MovelessKeeps(steps[1..], Does(steps[0], st));
    }
  }

  /** A callback that the rule allows, as it starts. */
  lemma CallKeeps(event: Event, st: State)
    requires Sound(st) && Follows(st.trace).Holds? && Judge(event, Follows(st.trace).entered) == Holds(Believed(st))
    ensures Inv(st.(trace := st.trace + [event]))
  {
    FollowsNext(st.trace, event);
  }

  lemma ExitStarts(st: State)
    requires Inv(st) && st.onWidget && st.capture.Some?
    ensures Inv(st.(onWidget := false, trace := st.trace + [Exited(st.capture.value)]))
  {
    CallKeeps(Exited(st.capture.value), st.(onWidget := false));
  }

  lemma EnterStarts(a: nat, st: State)
    requires Inv(st) && !st.onWidget && a in st.live
    ensures Inv(st.(onWidget := true, capture := Some(a), trace := st.trace + [Entered(a)]))
  {
    CallKeeps(Entered(a), st.(onWidget := true, capture := Some(a)));
  }

  lemma MoveStarts(a: nat, st: State)
    requires Inv(st) && Believed(st) == Some(a)
    ensures Inv(st.(trace := st.trace + [Moved(a)]))
  {
    CallKeeps(Moved(a), st);
  }

  lemma ExitKeeps(handler: seq<Step>, st: State)
    requires Inv(st) && st.onWidget && Moveless(handler)
    ensures Inv(Exit(true, handler, st)) && !Exit(true, handler, st).onWidget
  {
    hide Follows, Run;
    if st.capture.Some? {
      ExitStarts(st);
      MovelessKeeps(handler, st.(onWidget := false, trace := st.trace + [Exited(st.capture.value)]));
    }
  }

  lemma EnterKeeps(a: nat, handler: seq<Step>, st: State)
    requires Inv(st) && !st.onWidget && a in st.live && Moveless(handler)
    ensures Inv(Enter(a, handler, st)) && Enter(a, handler, st).onWidget
    ensures Enter(a, handler, st).capture == Observed(Enter(a, handler, st).live, Some(a))
  {
    EnterStarts(a, st);
    var on := st.(onWidget := true, capture := Some(a), trace := st.trace + [Entered(a)]);
    MovelessKeeps(handler, on);
    MovelessCapture(handler, on, a);
  }

  /** Handlers that do not move the mouse change the capture only when its annotation is gone. */
  lemma {:induction false} MovelessCapture(steps: seq<Step>, st: State, a: nat)
    requires Moveless(steps) && a < st.next && st.capture == Observed(st.live, Some(a))
    ensures Run(steps, st).capture == Observed(Run(steps, st).live, Some(a))
    decreases steps
  {
    if steps != [] { MovelessCapture(steps[1..], Does(steps[0], st), a); }
  }

  lemma {:induction false} MoveKeeps(s: Step, st: State)
    requires s.MouseMove? && SettledStep(s) && Inv(st) && st.alive
    ensures Inv(Move(s, st).0)
    decreases s, 0
  {
    hide Follows, Run;
    var hit := Observed(st.live, s.hit);
    var leaves := st.onWidget && st.capture != hit;
    if leaves { ExitKeeps(s.onExit, st); }
    var left := if leaves then Exit(true, s.onExit, st) else st;
    hide Exit;
    if left.alive && Observed(left.live, hit).Some? {
      var a := hit.value;
      if !left.onWidget { EnterKeeps(a, s.onEnter, left); }
      var entered := if left.onWidget then left else Enter(a, s.onEnter, left);
      hide Enter;
      if entered.alive && a in entered.live {
        MoveStarts(a, entered);
        RunKeeps(s.onMove, entered.(trace := entered.trace + [Moved(a)]));
      } else if entered.alive {
        Forgotten(s.onExit, entered);
      }
    }
  }

  /** Leaving without a callback what is gone anyway. */
  lemma Forgotten(handler: seq<Step>, st: State)
    requires Inv(st) && st.onWidget && st.capture.None?
    ensures Inv(Exit(false, handler, st))
  {
  }

  lemma {:induction false} RunKeeps(steps: seq<Step>, st: State)
    requires Inv(st) && Settled(steps)
    ensures Inv(Run(steps, st))
    decreases steps, 1
  {
    if steps != [] {
      hide Follows;
      if st.alive && steps[0].MouseMove? {
        MoveKeeps(steps[0], st);
      } else {
        DestroyedKeeps(if steps[0].Destroys? then steps[0].dead else st.live, st);
      }
      RunKeeps(steps[1..], Does(steps[0], st));
    }
  }

  /** In every run in which only move handlers move the mouse, to any depth, enter and exit callbacks bracket: nothing
      is entered while another annotation is, moves and exits go only to the one entered, and none of them to an
      annotation that is gone. */
  lemma CallbacksBracket(steps: seq<Step>)
    requires Settled(steps)
    ensures var st := Run(steps, INITIAL);
      Follows(st.trace) == Holds(Believed(st)) && Observed(st.live, Believed(st)) == Believed(st)
  {
    RunKeeps(steps, INITIAL);
  }

  function QuietMove(hit: Option<nat>): Step { MouseMove(hit, [], [], []) }

  /** A mouse move with handlers that do nothing: exactly which callbacks it makes. */
  lemma QuietMoveCalls(hit: Option<nat>, st: State)
    requires Sound(st) && st.alive && (hit.Some? ==> hit.value in st.live)
    ensures var after := Move(QuietMove(hit), st).0;
      var (leaves, enters) := (st.onWidget && st.capture != hit && st.capture.Some?,
                               hit.Some? && (!st.onWidget || st.capture != hit));
      && after.trace == st.trace
           + (if leaves then [Exited(st.capture.value)] else [])
           + (if enters then [Entered(hit.value)] else [])
           + (if hit.Some? then [Moved(hit.value)] else [])
      && (hit.Some? ==> after.onWidget && after.capture == hit)
      && (hit.None? && st.capture.Some? ==> Believed(after).None?)
  {
  }

  /** The result of a mouse move, whatever its handlers do: only a move onto a live annotation is handled, and such a
      move is not handled only when the annotation or the whole view is gone after it. */
  lemma HandledMeans(s: Step, st: State)
    requires s.MouseMove? && Sound(st) && st.alive
    ensures var (after, handled) := Move(s, st);
      && (handled ==> s.hit.Some? && s.hit.value in st.live)
      && (!handled && s.hit.Some? && s.hit.value in st.live ==> !after.alive || s.hit.value !in after.live)
  {
    hide Run, Enter, Exit;
  }

  /** With handlers that do nothing it is handled exactly over an annotation. */
  lemma QuietHandledIff(hit: Option<nat>, st: State)
    requires Sound(st) && st.alive
    ensures Move(QuietMove(hit), st).1 <==> hit.Some? && hit.value in st.live
  {
    var (s, h) := (QuietMove(hit), Observed(st.live, hit));
    var left := if st.onWidget && st.capture != h then Exit(true, s.onExit, st) else st;
    assert left.live == st.live && left.alive;
    if h.Some? && !left.onWidget { assert Enter(h.value, [], left).live == st.live && Enter(h.value, [], left).alive; }
    hide Run, Exit, Enter;
  }

  /** On entering an annotation: closing the view in the enter handler makes the move unhandled, destroying just the
      annotation there does not, nor does closing the view in the move handler. */
  lemma ClosingWhileEnteringIsUnhandled(a: nat, st: State)
    requires st.alive && !st.onWidget && a in st.live
    ensures !Move(MouseMove(Some(a), [], [Closes], []), st).1
    ensures Move(MouseMove(Some(a), [], [Destroys({a})], []), st).1
    ensures Move(MouseMove(Some(a), [], [], [Closes]), st).1
  {
    var on := st.(onWidget := true, capture := Some(a), trace := st.trace + [Entered(a)]);
    RunOne(Closes, on);
    RunOne(Destroys({a}), on);
    assert Enter(a, [Closes], st) == Run([Closes], on) && Enter(a, [Destroys({a})], st) == Run([Destroys({a})], on);
    assert Enter(a, [], st) == on;
    hide Run, Exit, Enter;
  }

  // ---------- Enter and exit handlers that move the mouse ----------

  /** An exit callback keeps the brackets exactly when its handler, whatever mouse moves it makes, leaves nothing
      entered, or closes the view. */
  lemma ExitKeepsIff(handler: seq<Step>, st: State)
    requires Inv(st) && st.onWidget && st.capture.Some?
    requires Inv(Calls(Exited(st.capture.value), handler, st.(onWidget := false)))
    ensures var called := Calls(Exited(st.capture.value), handler, st.(onWidget := false));
      Inv(Exit(true, handler, st)) <==> called.alive ==> Believed(called).None?
  {
    hide Follows;
  }

  /** What comes after an enter callback. */
  function AfterEnter(a: nat, handler: seq<Step>, st: State): State {
    if !st.alive then st
    else if a !in st.live then Exit(false, handler, st)
    else st.(trace := st.trace + [Moved(a)])
  }

  /** An enter callback keeps the brackets exactly when its handler, whatever mouse moves it makes, leaves its
      annotation entered, or nothing when that is gone, or closes the view. */
  lemma EnterKeepsIff(a: nat, onEnter: seq<Step>, onExit: seq<Step>, st: State)
    requires Inv(Enter(a, onEnter, st))
    ensures var entered := Enter(a, onEnter, st);
      Inv(AfterEnter(a, onExit, entered)) <==> entered.alive ==> Believed(entered) == Observed(entered.live, Some(a))
  {
    var entered := Enter(a, onEnter, st);
    FollowsNext(entered.trace, Moved(a));
    hide Follows, Enter;
  }

  lemma EventSound(event: Event, st: State)
    requires Sound(st) && (event.Entered? ==> event.a in st.live)
    ensures Sound(st.(trace := st.trace + [event]))
  {
    FollowsNext(st.trace, event);
  }

  /** Pointers stay sound whatever the handlers do. */
  lemma {:induction false} RunSound(steps: seq<Step>, st: State)
    requires Sound(st)
    ensures Sound(Run(steps, st))
    decreases steps, 1
  {
    if steps != [] {
      hide Follows;
      if st.alive && steps[0].MouseMove? {
        MoveSound(steps[0], st);
      } else {
        DestroyedKeeps(if steps[0].Destroys? then steps[0].dead else st.live, st);
      }
      RunSound(steps[1..], Does(steps[0], st));
    }
  }

  lemma {:induction false} ExitSound(callExit: bool, handler: seq<Step>, st: State)
    requires Sound(st)
    ensures Sound(Exit(callExit, handler, st))
    decreases handler, 2
  {
    hide Follows;
    if st.capture.Some? {
      var off := st.(onWidget := false);
      EventSound(Exited(st.capture.value), off);
      RunSound(handler, off.(trace := st.trace + [Exited(st.capture.value)]));
    }
  }

  lemma {:induction false} EnterSound(a: nat, handler: seq<Step>, st: State)
    requires Sound(st) && a in st.live
    ensures Sound(Enter(a, handler, st))
    decreases handler, 2
  {
    hide Follows;
    var on := st.(onWidget := true, capture := Some(a));
    EventSound(Entered(a), on);
    RunSound(handler, on.(trace := on.trace + [Entered(a)]));
  }

  lemma {:induction false} MoveSound(s: Step, st: State)
    requires s.MouseMove? && Sound(st) && st.alive
    ensures Sound(Move(s, st).0)
    decreases s, 0
  {
    hide Follows, Run;
    var hit := Observed(st.live, s.hit);
    ExitSound(true, s.onExit, st);
    var left := if st.onWidget && st.capture != hit then Exit(true, s.onExit, st) else st;
    hide Exit;
    if left.alive && Observed(left.live, hit).Some? {
      var a := hit.value;
      EnterSound(a, s.onEnter, left);
      var entered := if left.onWidget then left else Enter(a, s.onEnter, left);
      ExitSound(false, s.onExit, entered);
      hide Enter;
      EventSound(Moved(a), entered);
      RunSound(s.onMove, entered.(trace := entered.trace + [Moved(a)]));
    }
  }

  lemma RunOne(s: Step, st: State)
    ensures Run([s], st) == Does(s, st)
    ensures SettledStep(s) ==> Settled([s])
  {
    assert [s][1..] == [];
  }

  /** After any run, whatever moves its handlers made, the brackets hold on every continuation exactly when the view
      agrees with what has been entered: otherwise one more mouse move breaks them, with handlers that do nothing. */
  lemma SafeForeverIff(history: seq<Step>)
    requires Run(history, INITIAL).alive && Follows(Run(history, INITIAL).trace).Holds?
    ensures var st := Run(history, INITIAL);
      (forall steps :: Settled(steps) ==> Follows(Run(steps, st).trace).Holds?) <==> Agrees(st)
  {
    var st := Run(history, INITIAL);
    RunSound(history, INITIAL);
    if Agrees(st) {
      forall steps | Settled(steps) ensures Follows(Run(steps, st).trace).Holds? { RunKeeps(steps, st); }
    } else {
      var (entered, believed) := (Follows(st.trace).entered, Believed(st));
      var hit := if entered.Some? && believed.Some? then None else if entered.Some? then entered else believed;
      var steps := [QuietMove(hit)];
      RunOne(QuietMove(hit), st);
      QuietBreaks(hit, st);
      assert SettledStep(QuietMove(hit));
    }
  }

  lemma QuietBreaks(hit: Option<nat>, st: State)
    requires Sound(st) && st.alive && Follows(st.trace).Holds? && !Agrees(st)
    requires var (entered, believed) := (Follows(st.trace).entered, Believed(st));
      hit == if entered.Some? && believed.Some? then None else if entered.Some? then entered else believed
    ensures Follows(Does(QuietMove(hit), st).trace).Broken?
  {
    var (entered, believed) := (Follows(st.trace).entered, Believed(st));
    QuietMoveCalls(hit, st);
    var trace := Does(QuietMove(hit), st).trace;
    assert trace == Move(QuietMove(hit), st).0.trace;
    hide Move;
    if believed.Some? {
      var event := if entered.Some? then Exited(believed.value) else Moved(believed.value);
      FollowsNext(st.trace, event);
      hide Follows;
      assert trace == st.trace + [event];
    } else {
      var c := entered.value;
      FollowsNext(st.trace, Entered(c));
      FollowsNext(st.trace + [Entered(c)], Moved(c));
      hide Follows;
      assert trace == st.trace + [Entered(c)] + [Moved(c)];
    }
  }

  const TWO_LIVE := State(true, {0, 1}, 2, false, None, [])

  /** An enter handler that moves the mouse onto another annotation: the first is moved over while the second is
      entered. */
  lemma MoveInEnterBreaks()
    ensures Run([Loads, Loads], INITIAL) == TWO_LIVE
    ensures Does(MouseMove(Some(0), [], [QuietMove(Some(1))], []), TWO_LIVE).trace
            == [Entered(0), Exited(0), Entered(1), Moved(1), Moved(0)]
    ensures Follows([Entered(0), Exited(0), Entered(1), Moved(1), Moved(0)]).Broken?
  {
  }

  /** An exit handler that moves the mouse onto another annotation: that is entered, forgotten, and entered again. */
  lemma MoveInExitBreaks()
    ensures var first := Does(QuietMove(Some(0)), TWO_LIVE);
      var second := Does(MouseMove(None, [QuietMove(Some(1))], [], []), first);
      Does(QuietMove(Some(1)), second).trace
        == [Entered(0), Moved(0), Exited(0), Entered(1), Moved(1), Entered(1), Moved(1)]
    ensures Follows([Entered(0), Moved(0), Exited(0), Entered(1), Moved(1), Entered(1), Moved(1)]).Broken?
  {
    var first := Does(QuietMove(Some(0)), TWO_LIVE);
    QuietMoveCalls(Some(0), TWO_LIVE);
    assert first == TWO_LIVE.(onWidget := true, capture := Some(0), trace := [Entered(0), Moved(0)]);
    var off := first.(onWidget := false, trace := first.trace + [Exited(0)]);
    var onto := Does(QuietMove(Some(1)), off);
    assert onto == off.(onWidget := true, capture := Some(1), trace := off.trace + [Entered(1)] + [Moved(1)]);
    RunOne(QuietMove(Some(1)), off);
    var second := Does(MouseMove(None, [QuietMove(Some(1))], [], []), first);
    assert second == onto.(capture := None);
  }
}
