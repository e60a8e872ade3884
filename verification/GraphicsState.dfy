/** Page content as graphics operators, run by a machine with a stack of saved graphics states
    (section 8.4 of ISO 32000-1), and what putting q and Q around old content does to it. */
module GraphicsState {
  import opened FlattenMatrix
  import Sequences

  /** A matrix whose scale divided by zero has entries that are not finite, and so has every product with it. */
  datatype Transform = Finite(m: Matrix) | NotFinite {
    function Then(next: Transform): Transform {
      if Finite? && next.Finite? then Finite(m.Concat(next.m)) else NotFinite
    }
  }

  /** The transformation and every other parameter of the graphics state by name. */
  datatype State = State(ctm: Transform, settings: map<string, int>)

  datatype Op =
    | Save | Restore | Cm(t: Transform) | Set(name: string, value: int)
    | Do(resource: string) | Paint(mark: int)

  /** Something painted, and the state it is painted under. */
  datatype Event = Used(resource: string, under: State) | Marked(mark: int, under: State)

  datatype Machine = Machine(current: State, saved: seq<State>)

  datatype Outcome = Outcome(machine: Machine, events: seq<Event>)

  function Fresh(s: State): Machine { Machine(s, []) }

  /** A Q without a q to answer is passed over. */
  function Step(op: Op, m: Machine): Outcome {
    match op
    case Save => Outcome(Machine(m.current, m.saved + [m.current]), [])
    case Restore => Outcome(Popped(m), [])
    case Cm(t) => Outcome(Machine(State(t.Then(m.current.ctm), m.current.settings), m.saved), [])
    case Set(name, value) =>
      Outcome(Machine(State(m.current.ctm, m.current.settings[name := value]), m.saved), [])
    case Do(name) => Outcome(m, [Used(name, m.current)])
    case Paint(mark) => Outcome(m, [Marked(mark, m.current)])
  }

  function Popped(m: Machine): Machine {
    if m.saved == [] then m else Machine(m.saved[|m.saved| - 1], m.saved[..|m.saved| - 1])
  }

  function Run(ops: seq<Op>, m: Machine): Outcome
    decreases |ops|
  {
    if ops == [] then Outcome(m, [])
    else
      var first := Step(ops[0], m);
      var rest := Run(ops[1..], first.machine);
      Outcome(rest.machine, first.events + rest.events)
  }

  /** No Q of the operators comes without a q, of theirs or of the depth levels before them, to answer. */
  predicate NeverDips(ops: seq<Op>, depth: nat)
    decreases |ops|
  {
    ops == [] ||
    match ops[0]
    case Save => NeverDips(ops[1..], depth + 1)
    case Restore => depth > 0 && NeverDips(ops[1..], depth - 1)
    case _ => NeverDips(ops[1..], depth)
  }

  lemma {:induction false} RunAppend(a: seq<Op>, b: seq<Op>, m: Machine)
    ensures var first := Run(a, m);
      Run(a + b, m) == Outcome(Run(b, first.machine).machine, first.events + Run(b, first.machine).events)
    decreases |a|
  {
    if a == [] {
      assert a + b == b;
    } else {
      var first := Step(a[0], m);
      assert a + b == [a[0]] + (a[1..] + b);
      RunAppend(a[1..], b, first.machine);
      hide Step;
      var (x, y) := (Run(a[1..], first.machine), Run(b, Run(a[1..], first.machine).machine));
      Sequences.Regroup(first.events, x.events, y.events);
    }
  }

  lemma RunOne(op: Op, m: Machine)
    ensures Run([op], m) == Step(op, m)
  {
    assert [op][1..] == [];
  }

  /** Operators that never dip neither see nor touch what lies under them on the stack. */
  lemma {:induction false} BottomIsUntouched(ops: seq<Op>, bottom: seq<State>, m: Machine)
    requires NeverDips(ops, |m.saved|)
    ensures var alone := Run(ops, m);
      Run(ops, Machine(m.current, bottom + m.saved))
        == Outcome(Machine(alone.machine.current, bottom + alone.machine.saved), alone.events)
    decreases |ops|
  {
    if ops != [] {
      var first := Step(ops[0], m);
      var under := Machine(m.current, bottom + m.saved);
      if ops[0].Save? {
        Sequences.Regroup(bottom, m.saved, [m.current]);
      } else if ops[0].Restore? {
        assert (bottom + m.saved)[..|bottom + m.saved| - 1] == bottom + m.saved[..|m.saved| - 1];
      }
      assert Step(ops[0], under)
          == Outcome(Machine(first.machine.current, bottom + first.machine.saved), first.events);
      BottomIsUntouched(ops[1..], bottom, first.machine);
    }
  }

  function Wrapped(page: seq<Op>): seq<Op> { [Save] + page + [Restore] }

  lemma RunWrapped(page: seq<Op>, s: State)
    ensures var inner := Run(page, Machine(s, [s]));
      Run(Wrapped(page), Fresh(s)) == Outcome(Popped(inner.machine), inner.events)
  {
    hide Step, Run, Popped;
    RunAppend([Save] + page, [Restore], Fresh(s));
    RunAppend([Save], page, Fresh(s));
    RunOne(Save, Fresh(s));
    StepSave(s);
    var inner := Run(page, Machine(s, [s]));
    assert [] + inner.events == inner.events;
    RunOne(Restore, inner.machine);
    StepRestore(inner.machine);
    assert inner.events + [] == inner.events;
  }

  lemma StepSave(s: State)
    ensures Step(Save, Fresh(s)) == Outcome(Machine(s, [s]), [])
  {
    assert [] + [s] == [s];
  }

  lemma StepRestore(m: Machine)
    ensures Step(Restore, m) == Outcome(Popped(m), [])
  {
  }

  /** Content that never dips paints the same inside q and Q, and leaves the initial state behind when its own
      stack ends empty; otherwise the Q answers the content's own innermost open q. */
  lemma WrapNeverDips(page: seq<Op>, s: State)
    requires NeverDips(page, 0)
    ensures var (before, after) := (Run(page, Fresh(s)), Run(Wrapped(page), Fresh(s)));
      && after.events == before.events
      && after.machine.current == (if before.machine.saved == [] then s
                                   else before.machine.saved[|before.machine.saved| - 1])
      && |after.machine.saved| == |before.machine.saved|
  {
    hide Run, NeverDips;
    BottomIsUntouched(page, [s], Fresh(s));
    assert [s] + [] == [s];
    RunWrapped(page, s);
  }

  /** The stack of operators that never dip is as deep as their open q operators. */
  function Depth(ops: seq<Op>, depth: nat): (d: nat)
    requires NeverDips(ops, depth)
    decreases |ops|
  {
    if ops == [] then depth
    else match ops[0]
      case Save => Depth(ops[1..], depth + 1)
      case Restore => Depth(ops[1..], depth - 1)
      case _ => Depth(ops[1..], depth)
  }

  lemma {:induction false} DepthIsStack(ops: seq<Op>, m: Machine)
    requires NeverDips(ops, |m.saved|)
    ensures |Run(ops, m).machine.saved| == Depth(ops, |m.saved|)
    decreases |ops|
  {
    if ops != [] {
      DepthIsStack(ops[1..], Step(ops[0], m).machine);
    }
  }

  /** Where operators that dip do so first: before the place they never dip and leave nothing open. */
  predicate DipsFirstAt(ops: seq<Op>, depth: nat, k: nat) {
    k < |ops| && ops[k].Restore? && NeverDips(ops[..k], depth) && Depth(ops[..k], depth) == 0
  }

  lemma {:induction false} FirstDip(ops: seq<Op>, depth: nat) returns (k: nat)
    requires !NeverDips(ops, depth)
    ensures DipsFirstAt(ops, depth, k)
    decreases |ops|
  {
    if ops[0].Restore? && depth == 0 {
      k := 0;
      assert ops[..0] == [];
    } else {
      var next := if ops[0].Save? then depth + 1 else if ops[0].Restore? then depth - 1 else depth;
      var j := FirstDip(ops[1..], next);
      k := j + 1;
      assert ops[..k] == [ops[0]] + ops[1..][..j];
      assert ops[..k][1..] == ops[1..][..j];
    }
  }

  /** Past its first dip, content runs on from the state it had reached; inside q and Q it falls back to the
      initial state there. */
  lemma WrapDips(page: seq<Op>, k: nat, s: State)
    requires DipsFirstAt(page, 0, k)
    ensures var reached := Run(page[..k], Fresh(s));
      && Run(page, Fresh(s)).events == reached.events + Run(page[k + 1..], Fresh(reached.machine.current)).events
      && Run(Wrapped(page), Fresh(s)).events == reached.events + Run(page[k + 1..], Fresh(s)).events
      && Run(Wrapped(page), Fresh(s)).machine == Popped(Run(page[k + 1..], Fresh(s)).machine)
  {
    var (a, b) := (page[..k], page[k + 1..]);
    var reached := Run(a, Fresh(s));
    assert page == a + [Restore] + b;
    DepthIsStack(a, Fresh(s));
    assert reached.machine == Fresh(reached.machine.current);
    DipsThrough(a, b, Fresh(s), Fresh(reached.machine.current));
    BottomIsUntouched(a, [s], Fresh(s));
    assert [s] + [] == [s];
    DipsThrough(a, b, Machine(s, [s]), Fresh(s));
    RunWrapped(page, s);
  }

  lemma DipsThrough(a: seq<Op>, b: seq<Op>, m: Machine, next: Machine)
    requires Popped(Run(a, m).machine) == next
    ensures Run(a + [Restore] + b, m)
         == Outcome(Run(b, next).machine, Run(a, m).events + Run(b, next).events)
  {
    hide Run, Step, Popped;
    RunAppend(a + [Restore], b, m);
    RunAppend(a, [Restore], m);
    RunOne(Restore, Run(a, m).machine);
    StepRestore(Run(a, m).machine);
    assert Run(a, m).events + [] == Run(a, m).events;
  }

  /** What follows the first dip paints alike from the two states; vacuous when there is no dip. */
  predicate PaintsAlikeFrom(tail: seq<Op>, s: State, t: State) {
    Run(tail, Fresh(s)).events == Run(tail, Fresh(t)).events
  }

  /** The machine, popped once more, is back in the state. */
  predicate PopsTo(m: Machine, s: State) { Popped(m).current == s }

  function UseOps(key: string): seq<Op> { [Save, Cm(Finite(IDENTITY)), Do(key), Restore] }

  /** The content the page had, inside q and Q, and then the form. */
  function WithForm(page: seq<Op>, key: string): seq<Op> { Wrapped(page) + UseOps(key) }

  lemma IdentityFirst(t: Transform)
    ensures Finite(IDENTITY).Then(t) == t
  {
  }

  /** Using the form paints it in the current state and leaves the machine as it was. */
  lemma RunUse(key: string, m: Machine)
    ensures Run(UseOps(key), m) == Outcome(m, [Used(key, m.current)])
  {
    var ops := UseOps(key);
    IdentityFirst(m.current.ctm);
    assert ops[1..] == [Cm(Finite(IDENTITY)), Do(key), Restore];
    assert ops[1..][1..] == [Do(key), Restore];
    assert ops[1..][1..][1..] == [Restore];
    var inside := Machine(m.current, m.saved + [m.current]);
    assert Step(Cm(Finite(IDENTITY)), inside) == Outcome(inside, []);
    RunOne(Restore, inside);
    assert Popped(inside) == m;
    assert Run([Do(key), Restore], inside) == Outcome(m, [Used(key, m.current)]);
    assert Run(ops[1..], inside) == Outcome(m, [Used(key, m.current)]);
  }

  /** The new content paints what the old one did, then the form under the initial state, and ends in it. */
  predicate KeepsMeaning(page: seq<Op>, key: string, s: State) {
    var after := Run(WithForm(page, key), Fresh(s));
    after.events == Run(page, Fresh(s)).events + [Used(key, s)] && after.machine.current == s
  }

  lemma RunWithForm(page: seq<Op>, key: string, s: State)
    ensures var inner := Run(Wrapped(page), Fresh(s));
      Run(WithForm(page, key), Fresh(s))
        == Outcome(inner.machine, inner.events + [Used(key, inner.machine.current)])
  {
    hide Run, Wrapped, UseOps;
    RunAppend(Wrapped(page), UseOps(key), Fresh(s));
    RunUse(key, Run(Wrapped(page), Fresh(s)).machine);
  }

  /** For content that never dips: the painting is always kept, and the form comes under the initial state exactly
      when the content closes every q or its innermost open one saved the initial state. */
  lemma KeepsMeaningIff(page: seq<Op>, key: string, s: State)
    requires NeverDips(page, 0)
    ensures Run(page, Fresh(s)).events <= Run(WithForm(page, key), Fresh(s)).events
    ensures KeepsMeaning(page, key, s)
       <==> (Depth(page, 0) == 0 || PopsTo(Run(page, Fresh(s)).machine, s))
  {
    hide Run, NeverDips, WithForm, Depth;
    DepthIsStack(page, Fresh(s));
    WrapNeverDips(page, s);
    RunWithForm(page, key, s);
    var (before, after) := (Run(page, Fresh(s)), Run(Wrapped(page), Fresh(s)));
    LastsDiffer(before.events, Used(key, after.machine.current), Used(key, s));
  }

  lemma LastsDiffer<T>(a: seq<T>, x: T, y: T)
    ensures a + [x] == a + [y] <==> x == y
    ensures (a + [x])[..|a|] == a
  {
    assert (a + [x])[|a|] == x && (a + [y])[|a|] == y;
  }

  /** For content that dips, k its first dip: the exact condition, over what follows the dip. */
  lemma KeepsMeaningDippingIff(page: seq<Op>, k: nat, key: string, s: State)
    requires DipsFirstAt(page, 0, k)
    ensures var tail := page[k + 1..];
      KeepsMeaning(page, key, s) <==>
      (PaintsAlikeFrom(tail, s, Run(page[..k], Fresh(s)).machine.current) && PopsTo(Run(tail, Fresh(s)).machine, s))
  {
    assert k < |page|;
    hide Run, WithForm, DipsFirstAt, Popped;
    WrapDips(page, k, s);
    RunWithForm(page, key, s);
    var tail := page[k + 1..];
    var reached := Run(page[..k], Fresh(s));
    var (x, y) := (Run(tail, Fresh(s)), Run(tail, Fresh(reached.machine.current)));
    SameFront(reached.events, x.events, y.events, Used(key, Popped(x.machine).current), Used(key, s));
  }

  lemma SameFront<T>(a: seq<T>, b: seq<T>, c: seq<T>, x: T, y: T)
    ensures a + b + [x] == a + c + [y] <==> b == c && x == y
  {
    if a + b + [x] == a + c + [y] {
      assert |a + b + [x]| == |a| + |b| + 1 && |a + c + [y]| == |a| + |c| + 1;
      assert b == (a + b + [x])[|a|..|a| + |b|] && c == (a + c + [y])[|a|..|a| + |c|];
      assert (a + b + [x])[|a| + |b|] == x && (a + c + [y])[|a| + |c|] == y;
    }
  }

  /** Content that has never dipped, is balanced, and then dips: it can be followed by anything without losing its
      painting exactly when it had come back to the initial state by then. */
  lemma KeptBeforeAnyTailIff(front: seq<Op>, s: State)
    requires NeverDips(front, 0) && Depth(front, 0) == 0
    ensures (forall tail: seq<Op> ::
               Run(Wrapped(front + [Restore] + tail), Fresh(s)).events
                 == Run(front + [Restore] + tail, Fresh(s)).events)
       <==> Run(front, Fresh(s)).machine.current == s
  {
    hide Run, Wrapped;
    var reached := Run(front, Fresh(s));
    forall tail: seq<Op>
      ensures Run(Wrapped(front + [Restore] + tail), Fresh(s)).events == reached.events + Run(tail, Fresh(s)).events
      ensures Run(front + [Restore] + tail, Fresh(s)).events
           == reached.events + Run(tail, Fresh(reached.machine.current)).events
    {
      var page := front + [Restore] + tail;
      assert page[..|front|] == front && page[|front| + 1..] == tail;
      assert DipsFirstAt(page, 0, |front|);
      WrapDips(page, |front|, s);
    }
    if reached.machine.current != s {
      var tail := [Paint(0)];
      RunOne(Paint(0), Fresh(s));
      RunOne(Paint(0), Fresh(reached.machine.current));
      LastsDiffer(reached.events, Marked(0, s), Marked(0, reached.machine.current));
      assert Run(Wrapped(front + [Restore] + tail), Fresh(s)).events
          != Run(front + [Restore] + tail, Fresh(s)).events;
    }
  }

  /** One unanswered Q after a change of state is enough to change the page. */
  lemma UnansweredRestoreChangesPage(key: string)
    ensures exists page, s :: !KeepsMeaning(page, key, s)
              && !(Run(page, Fresh(s)).events <= Run(WithForm(page, key), Fresh(s)).events)
  {
    var s := State(Finite(IDENTITY), map[]);
    var page := [Set("w", 5), Restore, Paint(0)];
    var t := State(Finite(IDENTITY), map[]["w" := 5]);
    assert page[..1] == [Set("w", 5)] && page[2..] == [Paint(0)];
    assert [Set("w", 5)][1..] == [];
    assert DipsFirstAt(page, 0, 1);
    hide Run, WithForm, Wrapped, NeverDips, DipsFirstAt;
    RunOne(Set("w", 5), Fresh(s));
    RunOne(Paint(0), Fresh(s));
    RunOne(Paint(0), Fresh(t));
    WrapDips(page, 1, s);
    RunWithForm(page, key, s);
    assert Run(page, Fresh(s)).events == [] + [Marked(0, t)];
    assert Run(Wrapped(page), Fresh(s)).events == [] + [Marked(0, s)];
    assert "w" in t.settings && "w" !in s.settings;
    assert t != s;
    assert Run(WithForm(page, key), Fresh(s)).events[0] == Marked(0, s);
    assert Run(page, Fresh(s)).events[0] == Marked(0, t);
  }
}
