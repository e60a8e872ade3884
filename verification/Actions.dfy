/** Executing an action and the actions chained to it, over dictionaries that may be shared or run in circles. */
module Actions {
  import opened Basics
  import opened Sequences

  /** An action is a dictionary, or null for an entry of a Next array that is no dictionary. */
  type Action = Option<nat>

  datatype Document = Document(
    dicts: set<nat>,
    next: map<nat, seq<Action>>,
    scripts: set<nat>,       // dictionaries of type JavaScript
    nonEmpty: set<nat>,      // those whose script text is not empty
    jsPlatform: bool)
  {
    predicate Valid() {
      forall d :: d in next ==> forall i :: 0 <= i < |next[d]| ==> next[d][i] in Nodes()
    }

    function Nodes(): set<Action> {
      {None} + set d | d in dicts :: Some(d)
    }

    /** GetSubActionsCount and GetSubAction. */
    function SubActions(a: Action): seq<Action> {
      if a.Some? && a.value in next then next[a.value] else []
    }

    predicate IsScript(a: Action) {
      a.Some? && a.value in scripts
    }

    predicate RunsScript(a: Action) {
      IsScript(a) && jsPlatform && a.value in nonEmpty
    }
  }

  datatype Effect = Script(script: Action) | NoJs(action: Action)

  function EffectOf(doc: Document, a: Action): seq<Effect> {
    if doc.RunsScript(a) then [Script(a)] else if doc.IsScript(a) then [] else [NoJs(a)]
  }

  function Effects(doc: Document, ran: seq<Action>): seq<Effect> {
    if ran == [] then [] else EffectOf(doc, ran[0]) + Effects(doc, ran[1..])
  }

  // ---------- The specification ----------

  function Elements(s: seq<Action>): set<Action> {
    set i | 0 <= i < |s| :: s[i]
  }

  /** Whether execution of a succeeds, and the actions it runs in order. */
  function Run(doc: Document, a: Action, visited: set<Action>): (r: (bool, seq<Action>))
    requires doc.Valid() && a in doc.Nodes()
    decreases |doc.Nodes() - visited|, 0
  {
    if a in visited then (false, [])
    else
      Shrinks(doc.Nodes(), visited, visited + {a}, a);
      var (ok, ran) := RunAll(doc, doc.SubActions(a), visited + {a});
      (ok, [a] + ran)
  }

  function RunAll(doc: Document, subs: seq<Action>, visited: set<Action>): (r: (bool, seq<Action>))
    requires doc.Valid() && forall i :: 0 <= i < |subs| ==> subs[i] in doc.Nodes()
    decreases |doc.Nodes() - visited|, 1 + |subs|
  {
    if subs == [] then (true, [])
    else
      var (ok, ran) := Run(doc, subs[0], visited);
      if !ok then (false, ran)
      else
        Smaller(doc.Nodes() - (visited + Elements(ran)), doc.Nodes() - visited);
        var (ok', ran') := RunAll(doc, subs[1..], visited + Elements(ran));
        (ok', ran + ran')
  }

  // ---------- No dictionary twice, and the walk cut at the first repeat ----------

  /** The preorder walk over chained actions, down to a depth. */
  function Walk(doc: Document, a: Action, depth: nat): seq<Action>
    decreases depth, 0
  {
    if depth == 0 then [] else [a] + WalkAll(doc, doc.SubActions(a), depth - 1)
  }

  function WalkAll(doc: Document, subs: seq<Action>, depth: nat): seq<Action>
    decreases depth, 1 + |subs|
  {
    if subs == [] then [] else Walk(doc, subs[0], depth) + WalkAll(doc, subs[1..], depth)
  }

  /** The part of s before its first action that was visited or occurred before. */
  function CutAtRepeat(s: seq<Action>, visited: set<Action>): seq<Action> {
    if s == [] || s[0] in visited then [] else [s[0]] + CutAtRepeat(s[1..], visited + {s[0]})
  }

  lemma ElementsHead(s: seq<Action>)
    requires s != []
    ensures Elements(s) == {s[0]} + Elements(s[1..])
  {
    assert forall i :: 0 < i < |s| ==> s[i] == s[1..][i - 1];
  }

  lemma {:induction false} CutAtRepeatConcat(s: seq<Action>, t: seq<Action>, visited: set<Action>)
    ensures CutAtRepeat(s + t, visited) ==
      if CutAtRepeat(s, visited) == s then s + CutAtRepeat(t, visited + Elements(s)) else CutAtRepeat(s, visited)
  {
    if s == [] {
      assert s + t == t && visited + Elements(s) == visited;
    } else {
      assert (s + t)[1..] == s[1..] + t;
      if s[0] !in visited {
        var (rest, seen) := (s[1..], visited + {s[0]});
        CutAtRepeatConcat(rest, t, seen);
        ElementsHead(s);
        assert seen + Elements(rest) == visited + Elements(s);
        hide Elements;
        assert s == [s[0]] + rest;
        Regroup([s[0]], rest, CutAtRepeat(t, seen + Elements(rest)));
        SameTail([s[0]], CutAtRepeat(rest, seen), rest);
      }
    }
  }

  lemma {:induction false} CutIsDistinct(s: seq<Action>, visited: set<Action>)
    ensures var c := CutAtRepeat(s, visited); NoRepeats(c) && forall i :: 0 <= i < |c| ==> c[i] !in visited
    ensures CutAtRepeat(s, visited) == s <==> NoRepeats(s) && forall i :: 0 <= i < |s| ==> s[i] !in visited
  {
    if s != [] && s[0] !in visited {
      CutIsDistinct(s[1..], visited + {s[0]});
      assert s == [s[0]] + s[1..];
    }
  }

  lemma {:induction false} RunIsCutWalk(doc: Document, a: Action, visited: set<Action>, depth: nat)
    requires doc.Valid() && a in doc.Nodes() && depth > |doc.Nodes() - visited|
    ensures Run(doc, a, visited).1 == CutAtRepeat(Walk(doc, a, depth), visited)
    ensures Run(doc, a, visited).0 <==> CutAtRepeat(Walk(doc, a, depth), visited) == Walk(doc, a, depth)
    decreases |doc.Nodes() - visited|, 0
  {
    if a !in visited {
      Shrinks(doc.Nodes(), visited, visited + {a}, a);
      RunAllIsCutWalk(doc, doc.SubActions(a), visited + {a}, depth - 1);
      assert Walk(doc, a, depth)[1..] == WalkAll(doc, doc.SubActions(a), depth - 1);
    }
  }

  lemma {:induction false} RunAllIsCutWalk(doc: Document, subs: seq<Action>, visited: set<Action>, depth: nat)
    requires doc.Valid() && depth > |doc.Nodes() - visited|
    requires forall i :: 0 <= i < |subs| ==> subs[i] in doc.Nodes()
    ensures RunAll(doc, subs, visited).1 == CutAtRepeat(WalkAll(doc, subs, depth), visited)
    ensures RunAll(doc, subs, visited).0 <==> CutAtRepeat(WalkAll(doc, subs, depth), visited) == WalkAll(doc, subs, depth)
    decreases |doc.Nodes() - visited|, 1 + |subs|
  {
    hide CutAtRepeat, Run, Walk;
    if subs != [] {
      var (ok, ran) := Run(doc, subs[0], visited);
      var w, rest := Walk(doc, subs[0], depth), WalkAll(doc, subs[1..], depth);
      RunIsCutWalk(doc, subs[0], visited, depth);
      CutAtRepeatConcat(w, rest, visited);
      CutShorter(w, visited);
      if ok {
        Smaller(doc.Nodes() - (visited + Elements(ran)), doc.Nodes() - visited);
        RunAllIsCutWalk(doc, subs[1..], visited + Elements(ran), depth);
        SameTail(w, rest, CutAtRepeat(rest, visited + Elements(ran)));
      } else {
        assert |CutAtRepeat(w, visited)| < |w + rest|;
      }
    } else {
      CutShorter([], visited);
    }
  }

  lemma SameTail(a: seq<Action>, b: seq<Action>, c: seq<Action>)
    ensures a + b == a + c <==> b == c
  {
    assert (a + b)[|a|..] == b && (a + c)[|a|..] == c;
  }

  lemma {:induction false} CutShorter(s: seq<Action>, visited: set<Action>)
    ensures |CutAtRepeat(s, visited)| <= |s|
    ensures |CutAtRepeat(s, visited)| == |s| ==> CutAtRepeat(s, visited) == s
  {
    if s != [] && s[0] !in visited { CutShorter(s[1..], visited + {s[0]}); }
  }

  /** On every chain of actions, shared or circular, execution ends; it runs the preorder walk up to the first
      dictionary that occurs again, so none twice, and reports success exactly when none does. */
  lemma RunsWalkUpToRepeat(doc: Document, a: Action, depth: nat)
    requires doc.Valid() && a in doc.Nodes() && depth > |doc.Nodes()|
    ensures Run(doc, a, {}).1 == CutAtRepeat(Walk(doc, a, depth), {})
    ensures NoRepeats(Run(doc, a, {}).1)
    ensures Run(doc, a, {}).0 <==> NoRepeats(Walk(doc, a, depth))
  {
    assert doc.Nodes() - {} == doc.Nodes();
    RunIsCutWalk(doc, a, {}, depth);
    CutIsDistinct(Walk(doc, a, depth), {});
  }

  // ---------- Success means: every dictionary by one path only ----------

  /** p picks a sub-action at every step. */
  predicate IsPath(doc: Document, a: Action, p: seq<nat>)
    decreases p
  {
    p == []
    || (a.Some? && a.value in doc.next && p[0] < |doc.next[a.value]| && IsPath(doc, doc.next[a.value][p[0]], p[1..]))
  }

  function At(doc: Document, a: Action, p: seq<nat>): Action
    requires IsPath(doc, a, p)
    decreases p
  {
    if p == [] then a else At(doc, doc.next[a.value][p[0]], p[1..])
  }

  lemma {:induction false} RanAllIsNew(doc: Document, subs: seq<Action>, visited: set<Action>)
    requires doc.Valid() && forall i :: 0 <= i < |subs| ==> subs[i] in doc.Nodes()
    ensures forall x :: x in RunAll(doc, subs, visited).1 ==> x !in visited
  {
    var depth := |doc.Nodes() - visited| + 1;
    RunAllIsCutWalk(doc, subs, visited, depth);
    CutIsDistinct(WalkAll(doc, subs, depth), visited);
  }

  lemma {:induction false} SuccessCovers(doc: Document, a: Action, visited: set<Action>, p: seq<nat>)
    requires doc.Valid() && a in doc.Nodes() && Run(doc, a, visited).0 && IsPath(doc, a, p)
    ensures At(doc, a, p) in Run(doc, a, visited).1
    decreases |doc.Nodes() - visited|, 0
  {
    if p != [] {
      Shrinks(doc.Nodes(), visited, visited + {a}, a);
      SuccessCoversAll(doc, doc.SubActions(a), visited + {a}, p[0], p[1..]);
    }
  }

  lemma {:induction false} SuccessCoversAll(doc: Document, subs: seq<Action>, visited: set<Action>, i: nat, p: seq<nat>)
    requires doc.Valid() && forall i :: 0 <= i < |subs| ==> subs[i] in doc.Nodes()
    requires RunAll(doc, subs, visited).0 && i < |subs| && IsPath(doc, subs[i], p)
    ensures At(doc, subs[i], p) in RunAll(doc, subs, visited).1
    decreases |doc.Nodes() - visited|, 1 + |subs|
  {
    hide Run, IsPath, At, Document.Valid, Document.Nodes, Elements;
    var ran := Run(doc, subs[0], visited).1;
    Smaller(doc.Nodes() - (visited + Elements(ran)), doc.Nodes() - visited);
    if i == 0 {
      SuccessCovers(doc, subs[0], visited, p);
    } else {
      SuccessCoversAll(doc, subs[1..], visited + Elements(ran), i - 1, p);
    }
  }

  lemma {:induction false} SuccessSeparates(doc: Document, a: Action, visited: set<Action>, p: seq<nat>, q: seq<nat>)
    requires doc.Valid() && a in doc.Nodes() && Run(doc, a, visited).0
    requires IsPath(doc, a, p) && IsPath(doc, a, q) && p != q
    ensures At(doc, a, p) != At(doc, a, q)
    decreases |doc.Nodes() - visited|, 0
  {
    var subs := doc.SubActions(a);
    Shrinks(doc.Nodes(), visited, visited + {a}, a);
    RanAllIsNew(doc, subs, visited + {a});
    if p == [] {
      SuccessCoversAll(doc, subs, visited + {a}, q[0], q[1..]);
    } else if q == [] {
      SuccessCoversAll(doc, subs, visited + {a}, p[0], p[1..]);
    } else {
      assert p == [p[0]] + p[1..] && q == [q[0]] + q[1..];
      SuccessSeparatesAll(doc, subs, visited + {a}, p[0], p[1..], q[0], q[1..]);
    }
  }

  lemma {:induction false} SuccessSeparatesAll(doc: Document, subs: seq<Action>, visited: set<Action>,
                                               i: nat, p: seq<nat>, j: nat, q: seq<nat>)
    requires doc.Valid() && forall i :: 0 <= i < |subs| ==> subs[i] in doc.Nodes()
    requires RunAll(doc, subs, visited).0 && i < |subs| && j < |subs| && (i != j || p != q)
    requires IsPath(doc, subs[i], p) && IsPath(doc, subs[j], q)
    ensures At(doc, subs[i], p) != At(doc, subs[j], q)
    decreases |doc.Nodes() - visited|, 1 + |subs|
  {
    hide Run, At, IsPath, Document.Valid, Document.Nodes;
    var ran := Run(doc, subs[0], visited).1;
    assert forall x :: x in ran ==> x in Elements(ran);
    hide Elements;
    var later := visited + Elements(ran);
    Smaller(doc.Nodes() - later, doc.Nodes() - visited);
    RanAllIsNew(doc, subs[1..], later);
    if i == 0 && j == 0 {
      SuccessSeparates(doc, subs[0], visited, p, q);
    } else if i == 0 {
      SuccessCovers(doc, subs[0], visited, p);
      SuccessCoversAll(doc, subs[1..], later, j - 1, q);
    } else if j == 0 {
      SuccessCovers(doc, subs[0], visited, q);
      SuccessCoversAll(doc, subs[1..], later, i - 1, p);
    } else {
      SuccessSeparatesAll(doc, subs[1..], later, i - 1, p, j - 1, q);
    }
  }

  lemma {:induction false} PathTo(doc: Document, a: Action, visited: set<Action>, x: Action) returns (p: seq<nat>)
    requires doc.Valid() && a in doc.Nodes() && x in Run(doc, a, visited).1
    ensures IsPath(doc, a, p) && At(doc, a, p) == x
    decreases |doc.Nodes() - visited|, 0
  {
    if x == a {
      p := [];
    } else {
      Shrinks(doc.Nodes(), visited, visited + {a}, a);
      var i, q := PathToAll(doc, doc.SubActions(a), visited + {a}, x);
      p := [i] + q;
    }
  }

  lemma {:induction false} PathToAll(doc: Document, subs: seq<Action>, visited: set<Action>, x: Action)
    returns (i: nat, p: seq<nat>)
    requires doc.Valid() && forall i :: 0 <= i < |subs| ==> subs[i] in doc.Nodes()
    requires x in RunAll(doc, subs, visited).1
    ensures i < |subs| && IsPath(doc, subs[i], p) && At(doc, subs[i], p) == x
    decreases |doc.Nodes() - visited|, 1 + |subs|
  {
    var ran := Run(doc, subs[0], visited).1;
    if x in ran {
      i := 0;
      p := PathTo(doc, subs[0], visited, x);
    } else {
      Smaller(doc.Nodes() - (visited + Elements(ran)), doc.Nodes() - visited);
      i, p := PathToAll(doc, subs[1..], visited + Elements(ran), x);
      i := i + 1;
    }
  }

  /** A failed run names a path to a visited dictionary (then q == p), or two paths to one dictionary. */
  lemma {:induction false} FailureNamesRepeat(doc: Document, a: Action, visited: set<Action>) returns (p: seq<nat>, q: seq<nat>)
    requires doc.Valid() && a in doc.Nodes() && !Run(doc, a, visited).0
    ensures IsPath(doc, a, p) && IsPath(doc, a, q) && At(doc, a, p) == At(doc, a, q)
    ensures p == q ==> At(doc, a, p) in visited
    decreases |doc.Nodes() - visited|, 0
  {
    if a in visited {
      p, q := [], [];
    } else {
      Shrinks(doc.Nodes(), visited, visited + {a}, a);
      var i, j;
      i, p, j, q := FailureNamesRepeatAll(doc, doc.SubActions(a), visited + {a});
      if i == j && p == q && At(doc, doc.SubActions(a)[i], p) == a {
        p, q := [i] + p, [];
      } else {
        p, q := [i] + p, [j] + q;
      }
    }
  }

  lemma {:induction false} FailureNamesRepeatAll(doc: Document, subs: seq<Action>, visited: set<Action>)
    returns (i: nat, p: seq<nat>, j: nat, q: seq<nat>)
    requires doc.Valid() && forall i :: 0 <= i < |subs| ==> subs[i] in doc.Nodes()
    requires !RunAll(doc, subs, visited).0
    ensures i < |subs| && j < |subs| && IsPath(doc, subs[i], p) && IsPath(doc, subs[j], q)
    ensures At(doc, subs[i], p) == At(doc, subs[j], q)
    ensures i == j && p == q ==> At(doc, subs[i], p) in visited
    decreases |doc.Nodes() - visited|, 1 + |subs|
  {
    hide Run, At, IsPath;
    var (ok, ran) := Run(doc, subs[0], visited);
    if !ok {
      i, j := 0, 0;
      p, q := FailureNamesRepeat(doc, subs[0], visited);
    } else {
      Smaller(doc.Nodes() - (visited + Elements(ran)), doc.Nodes() - visited);
      i, p, j, q := FailureNamesRepeatAll(doc, subs[1..], visited + Elements(ran));
      i, j := i + 1, j + 1;
      if i == j && p == q && At(doc, subs[i], p) in ran {
        j := 0;
        q := PathTo(doc, subs[0], visited, At(doc, subs[i], p));
      }
    }
  }

  ghost predicate Reachable(doc: Document, a: Action, x: Action) {
    exists p :: IsPath(doc, a, p) && At(doc, a, p) == x
  }

  /** Execution succeeds exactly when no dictionary is reached along two different paths, and then it has run
      exactly the reachable ones. */
  lemma SucceedsIffOnePathEach(doc: Document, a: Action)
    requires doc.Valid() && a in doc.Nodes()
    ensures Run(doc, a, {}).0 <==>
            forall p, q :: IsPath(doc, a, p) && IsPath(doc, a, q) && At(doc, a, p) == At(doc, a, q) ==> p == q
    ensures Run(doc, a, {}).0 ==> forall x :: x in Run(doc, a, {}).1 <==> Reachable(doc, a, x)
  {
    if Run(doc, a, {}).0 {
      forall p, q | IsPath(doc, a, p) && IsPath(doc, a, q) && At(doc, a, p) == At(doc, a, q) ensures p == q {
        if p != q { SuccessSeparates(doc, a, {}, p, q); }
      }
      forall x ensures x in Run(doc, a, {}).1 <==> Reachable(doc, a, x) {
        if x in Run(doc, a, {}).1 { var p := PathTo(doc, a, {}, x); }
        if Reachable(doc, a, x) {
          var p :| IsPath(doc, a, p) && At(doc, a, p) == x;
          SuccessCovers(doc, a, {}, p);
        }
      }
    } else {
      var p, q := FailureNamesRepeat(doc, a, {});
      assert p != q;
    }
  }

  // ---------- The field variant ----------

  /** Whether running a, after the actions done, leaves the field invalid. Only a script can do that; the
      function valid says whether the field still exists after a sequence of actions. */
  predicate Invalidates(doc: Document, valid: seq<Action> -> bool, done: seq<Action>, a: Action) {
    doc.RunsScript(a) && !valid(done + [a])
  }

  function FieldRun(doc: Document, valid: seq<Action> -> bool, a: Action, visited: set<Action>, done: seq<Action>)
    : (r: (bool, seq<Action>))
    requires doc.Valid() && a in doc.Nodes()
    decreases |doc.Nodes() - visited|, 0
  {
    if a in visited then (false, [])
    else if Invalidates(doc, valid, done, a) then (false, [a])
    else
      Shrinks(doc.Nodes(), visited, visited + {a}, a);
      var (ok, ran) := FieldRunAll(doc, valid, doc.SubActions(a), visited + {a}, done + [a]);
      (ok, [a] + ran)
  }

  function FieldRunAll(doc: Document, valid: seq<Action> -> bool, subs: seq<Action>, visited: set<Action>,
                       done: seq<Action>): (r: (bool, seq<Action>))
    requires doc.Valid() && forall i :: 0 <= i < |subs| ==> subs[i] in doc.Nodes()
    decreases |doc.Nodes() - visited|, 1 + |subs|
  {
    if subs == [] then (true, [])
    else
      var (ok, ran) := FieldRun(doc, valid, subs[0], visited, done);
      if !ok then (false, ran)
      else
        Smaller(doc.Nodes() - (visited + Elements(ran)), doc.Nodes() - visited);
        var (ok', ran') := FieldRunAll(doc, valid, subs[1..], visited + Elements(ran), done + ran);
        (ok', ran + ran')
  }

  predicate StaysValid(doc: Document, valid: seq<Action> -> bool, done: seq<Action>, s: seq<Action>)
    decreases s
  {
    s == [] || (!Invalidates(doc, valid, done, s[0]) && StaysValid(doc, valid, done + [s[0]], s[1..]))
  }

  /** s up to and including the first action that invalidates the field. */
  function CutAtInvalid(doc: Document, valid: seq<Action> -> bool, done: seq<Action>, s: seq<Action>): seq<Action>
    decreases s
  {
    if s == [] then []
    else if Invalidates(doc, valid, done, s[0]) then [s[0]]
    else [s[0]] + CutAtInvalid(doc, valid, done + [s[0]], s[1..])
  }

  lemma CutStep(doc: Document, valid: seq<Action> -> bool, done: seq<Action>, a: Action, s: seq<Action>)
    ensures CutAtInvalid(doc, valid, done, [a] + s)
         == if Invalidates(doc, valid, done, a) then [a] else [a] + CutAtInvalid(doc, valid, done + [a], s)
    ensures StaysValid(doc, valid, done, [a] + s)
       <==> !Invalidates(doc, valid, done, a) && StaysValid(doc, valid, done + [a], s)
  {
    assert ([a] + s)[1..] == s;
  }

  lemma {:induction false} CutAtInvalidConcat(doc: Document, valid: seq<Action> -> bool, done: seq<Action>,
                                              s: seq<Action>, t: seq<Action>)
    ensures CutAtInvalid(doc, valid, done, s + t) ==
      if StaysValid(doc, valid, done, s) then s + CutAtInvalid(doc, valid, done + s, t)
      else CutAtInvalid(doc, valid, done, s)
    ensures StaysValid(doc, valid, done, s + t) <==>
      StaysValid(doc, valid, done, s) && StaysValid(doc, valid, done + s, t)
    decreases s
  {
    if s == [] {
      assert s + t == t && done + s == done;
    } else {
      var (first, rest) := ([s[0]], s[1..]);
      assert s == first + rest;
      Sequences.Regroup(first, rest, t);
      Sequences.Regroup(done, first, rest);
      CutAtInvalidConcat(doc, valid, done + first, rest, t);
      CutStep(doc, valid, done, s[0], rest);
      CutStep(doc, valid, done, s[0], rest + t);
      hide CutAtInvalid, StaysValid, Invalidates;
      Sequences.Regroup(first, rest, CutAtInvalid(doc, valid, done + s, t));
    }
  }

  lemma {:induction false} StaysValidUncut(doc: Document, valid: seq<Action> -> bool, done: seq<Action>, s: seq<Action>)
    requires StaysValid(doc, valid, done, s)
    ensures CutAtInvalid(doc, valid, done, s) == s
    decreases s
  {
    if s != [] { StaysValidUncut(doc, valid, done + [s[0]], s[1..]); }
  }

  /** The field variant runs what the document variant runs, up to and including the first script that
      invalidates the field, and succeeds exactly when the document variant does and no script does that. */
  lemma {:induction false} FieldRunIsCut(doc: Document, valid: seq<Action> -> bool, a: Action, visited: set<Action>,
                                         done: seq<Action>)
    requires doc.Valid() && a in doc.Nodes()
    ensures var (all, field) := (Run(doc, a, visited), FieldRun(doc, valid, a, visited, done));
      && field.1 == CutAtInvalid(doc, valid, done, all.1)
      && (field.0 <==> all.0 && StaysValid(doc, valid, done, all.1))
    decreases |doc.Nodes() - visited|, 0
  {
    if a !in visited {
      Shrinks(doc.Nodes(), visited, visited + {a}, a);
      FieldRunAllIsCut(doc, valid, doc.SubActions(a), visited + {a}, done + [a]);
      assert Run(doc, a, visited).1[1..] == RunAll(doc, doc.SubActions(a), visited + {a}).1;
    }
  }

  lemma {:induction false} FieldRunAllIsCut(doc: Document, valid: seq<Action> -> bool, subs: seq<Action>,
                                            visited: set<Action>, done: seq<Action>)
    requires doc.Valid() && forall i :: 0 <= i < |subs| ==> subs[i] in doc.Nodes()
    ensures var (all, field) := (RunAll(doc, subs, visited), FieldRunAll(doc, valid, subs, visited, done));
      && field.1 == CutAtInvalid(doc, valid, done, all.1)
      && (field.0 <==> all.0 && StaysValid(doc, valid, done, all.1))
    decreases |doc.Nodes() - visited|, 1 + |subs|
  {
    hide Run, FieldRun, CutAtInvalid, StaysValid;
    if subs != [] {
      var (ok, ran) := Run(doc, subs[0], visited);
      FieldRunIsCut(doc, valid, subs[0], visited, done);
      if ok {
        Smaller(doc.Nodes() - (visited + Elements(ran)), doc.Nodes() - visited);
        CutAtInvalidConcat(doc, valid, done, ran, RunAll(doc, subs[1..], visited + Elements(ran)).1);
        if StaysValid(doc, valid, done, ran) {
          StaysValidUncut(doc, valid, done, ran);
          FieldRunAllIsCut(doc, valid, subs[1..], visited + Elements(ran), done + ran);
        }
      }
    } else {
      NothingCut(doc, valid, done);
    }
  }

  lemma NothingCut(doc: Document, valid: seq<Action> -> bool, done: seq<Action>)
    ensures CutAtInvalid(doc, valid, done, []) == [] && StaysValid(doc, valid, done, [])
  {
  }

  lemma {:induction false} NothingAfterInvalidation(doc: Document, valid: seq<Action> -> bool, done: seq<Action>,
                                                    s: seq<Action>, k: nat)
    requires var c := CutAtInvalid(doc, valid, done, s); k + 1 < |c|
    ensures var c := CutAtInvalid(doc, valid, done, s); !Invalidates(doc, valid, done + c[..k], c[k])
    decreases s
  {
    var c := CutAtInvalid(doc, valid, done, s);
    if k == 0 {
      assert done + c[..0] == done;
    } else {
      NothingAfterInvalidation(doc, valid, done + [s[0]], s[1..], k - 1);
      assert done + [s[0]] + c[1..][..k - 1] == done + c[..k];
    }
  }

  /** Told by the document: the action is a script that runs, and the field is gone after it. */
  predicate Kills(doc: Document, valid: seq<Action> -> bool, done: seq<Action>, a: Action) {
    doc.jsPlatform && a.Some? && a.value in doc.scripts && a.value in doc.nonEmpty && !valid(done + [a])
  }

  lemma {:induction false} CutStops(doc: Document, valid: seq<Action> -> bool, done: seq<Action>, s: seq<Action>)
    ensures var c := CutAtInvalid(doc, valid, done, s);
      && c <= s
      && (forall k :: 0 <= k < |c| - 1 ==> !Kills(doc, valid, done + c[..k], c[k]))
      && (c != s ==> c != [] && Kills(doc, valid, done + c[..|c| - 1], c[|c| - 1]))
      && (StaysValid(doc, valid, done, s) <==> c == s && (c != [] ==> !Kills(doc, valid, done + c[..|c| - 1], c[|c| - 1])))
    decreases s
  {
    var c := CutAtInvalid(doc, valid, done, s);
    if s != [] {
      InvalidatesIsKills(doc, valid, done, s[0]);
      hide Invalidates, Kills;
      assert done + c[..0] == done;
      if !Invalidates(doc, valid, done, s[0]) {
        CutStops(doc, valid, done + [s[0]], s[1..]);
        var c' := c[1..];
        assert c' == CutAtInvalid(doc, valid, done + [s[0]], s[1..]);
        hide CutAtInvalid, StaysValid;
        assert c == [s[0]] + c';
        forall k | 0 <= k < |c'| ensures done + [s[0]] + c'[..k] == done + c[..k + 1] { Ahead(done, s[0], c', k); }
        forall k | 0 < k < |c| - 1 ensures !Kills(doc, valid, done + c[..k], c[k]) {
          assert !Kills(doc, valid, done + [s[0]] + c'[..k - 1], c'[k - 1]);
        }
      }
    }
  }

  lemma Ahead(done: seq<Action>, a: Action, c: seq<Action>, k: nat)
    requires k <= |c|
    ensures done + [a] + c[..k] == done + ([a] + c)[..k + 1]
  {
    assert ([a] + c)[..k + 1] == [a] + c[..k];
  }

  lemma InvalidatesIsKills(doc: Document, valid: seq<Action> -> bool, done: seq<Action>, a: Action)
    ensures Invalidates(doc, valid, done, a) <==> Kills(doc, valid, done, a)
  {
  }

  /** A field's actions run as a document's do, up to the first script after which the field is gone: before the last
      action run no script kills the field, and when the run is cut short the last one does. It succeeds exactly when
      the document's run does and the last one does not kill the field either. */
  lemma FieldStopsAtFirstKill(doc: Document, valid: seq<Action> -> bool, a: Action)
    requires doc.Valid() && a in doc.Nodes()
    ensures var ((ok, full), (fieldOk, c)) := (Run(doc, a, {}), FieldRun(doc, valid, a, {}, []));
      && c != [] && c <= full
      && (forall k :: 0 <= k < |c| - 1 ==> !Kills(doc, valid, c[..k], c[k]))
      && (c != full ==> Kills(doc, valid, c[..|c| - 1], c[|c| - 1]))
      && (fieldOk <==> ok && c == full && !Kills(doc, valid, c[..|c| - 1], c[|c| - 1]))
  {
    FieldRunIsCut(doc, valid, a, {}, []);
    var full := Run(doc, a, {}).1;
    CutStops(doc, valid, [], full);
    var c := FieldRun(doc, valid, a, {}, []).1;
    forall k | 0 <= k < |c| ensures [] + c[..k] == c[..k] {}
    hide RunAll, FieldRunAll, Kills;
  }

  // ---------- What the actions run do ----------

  function ActionsOf(effects: seq<Effect>): (s: seq<Action>)
    ensures |s| == |effects|
    ensures forall i :: 0 <= i < |s| ==> s[i] == match effects[i] case Script(a) => a case NoJs(a) => a
  {
    seq(|effects|, i requires 0 <= i < |effects| => match effects[i] case Script(a) => a case NoJs(a) => a)
  }

  /** Whether running the action has an effect: a script has one when it has a text and the platform runs scripts. */
  predicate HasEffect(doc: Document, a: Action) {
    a.Some? && a.value in doc.scripts ==> doc.jsPlatform && a.value in doc.nonEmpty
  }

  /** The effects are those of the actions run, in their order, each once for each time it ran: a script runs as such,
      every other action as what it is. */
  lemma {:induction false} EffectsAre(doc: Document, ran: seq<Action>) returns (js: seq<nat>)
    ensures var effects := Effects(doc, ran);
      && PickedAt(ActionsOf(effects), ran, js)
      && (forall i: nat :: i in js <==> i < |ran| && HasEffect(doc, ran[i]))
      && forall e :: e in effects ==>
           match e case Script(a) => a.Some? && a.value in doc.scripts case NoJs(a) => a.None? || a.value !in doc.scripts
    decreases |ran|
  {
    js := [];
    if ran != [] {
      var (front, a) := (ran[..|ran| - 1], ran[|ran| - 1]);
      js := EffectsAre(doc, front);
      assert ran == front + [a];
      EffectsConcat(doc, front, [a]);
      AfterOne(doc, State({}, [], []), a);
      var (before, more) := (Effects(doc, front), EffectOf(doc, a));
      assert Effects(doc, ran) == before + more;
      assert ActionsOf(before + more) == ActionsOf(before) + ActionsOf(more);
      PickedMore(ActionsOf(before), front, js, a);
      if HasEffect(doc, a) {
        js := js + [|front|];
        assert ActionsOf(more) == [a];
      } else {
        assert ActionsOf(before) + [] == ActionsOf(before);
      }
    }
  }

  function Doing(doc: Document, a: Action): Effect {
    if a.Some? && a.value in doc.scripts then Script(a) else NoJs(a)
  }

  /** Effect k is what the action run at place js[k] does. */
  ghost predicate Performs(doc: Document, ran: seq<Action>, effects: seq<Effect>, js: seq<nat>) {
    && |js| == |effects|
    && (forall k :: 0 <= k < |js| ==> js[k] < |ran| && effects[k] == Doing(doc, ran[js[k]]) && HasEffect(doc, ran[js[k]]))
    && (forall k, l :: 0 <= k < l < |js| ==> js[k] < js[l])
    && (forall i: nat :: i < |ran| && HasEffect(doc, ran[i]) ==> i in js)
  }

  lemma EffectsPerform(doc: Document, ran: seq<Action>) returns (js: seq<nat>)
    ensures Performs(doc, ran, Effects(doc, ran), js)
  {
    js := EffectsAre(doc, ran);
    hide Effects, HasEffect;
    var effects := Effects(doc, ran);
    forall k | 0 <= k < |js|
      ensures js[k] < |ran| && effects[k] == Doing(doc, ran[js[k]]) && HasEffect(doc, ran[js[k]])
    {
      assert effects[k] in effects && ActionsOf(effects)[k] == ran[js[k]] && js[k] in js;
    }
  }

  lemma PerformedIff(doc: Document, ran: seq<Action>, effects: seq<Effect>, js: seq<nat>, x: Action)
    requires Performs(doc, ran, effects, js)
    ensures Doing(doc, x) in effects <==> x in ran && HasEffect(doc, x)
  {
    hide HasEffect;
    if Doing(doc, x) in effects {
      var k :| 0 <= k < |effects| && effects[k] == Doing(doc, x);
      assert Doing(doc, ran[js[k]]) == Doing(doc, x);
    }
    if x in ran && HasEffect(doc, x) {
      var i: nat :| i < |ran| && ran[i] == x;
      var k :| 0 <= k < |js| && js[k] == i;
      assert effects[k] in effects;
    }
  }

  lemma PerformedOnce(doc: Document, ran: seq<Action>, effects: seq<Effect>, js: seq<nat>)
    requires Performs(doc, ran, effects, js) && NoRepeats(ran)
    ensures NoRepeats(effects)
    ensures forall e :: e in effects ==> exists x :: e == Doing(doc, x)
  {
    hide HasEffect;
    forall i, j | 0 <= i < j < |effects| ensures effects[i] != effects[j] {
      assert ran[js[i]] != ran[js[j]];
    }
    forall e | e in effects ensures exists x :: e == Doing(doc, x) {
      var k :| 0 <= k < |effects| && effects[k] == e;
      assert e == Doing(doc, ran[js[k]]);
    }
  }

  /** Executing an action from the start: a script is run exactly when it is reached by the run, has a text and the
      platform runs scripts; any other action is performed exactly when it is reached; and nothing is done twice. */
  lemma RunEffects(doc: Document, a: Action)
    requires doc.Valid() && a in doc.Nodes()
    ensures var (ran, effects) := (Run(doc, a, {}).1, Effects(doc, Run(doc, a, {}).1));
      && (forall x :: Script(x) in effects <==> x in ran && x.Some? && x.value in doc.scripts
                                                && x.value in doc.nonEmpty && doc.jsPlatform)
      && (forall x :: NoJs(x) in effects <==> x in ran && (x.None? || x.value !in doc.scripts))
      && NoRepeats(effects)
  {
    var (ran, effects) := (Run(doc, a, {}).1, Effects(doc, Run(doc, a, {}).1));
    RanIsDistinct(doc, a);
    hide Run, Effects, Document.Valid;
    var js := EffectsPerform(doc, ran);
    PerformedOnce(doc, ran, effects, js);
    hide Performs, NoRepeats;
    forall x ensures Script(x) in effects <==> x in ran && Doing(doc, x) == Script(x) && HasEffect(doc, x) {
      PerformedIff(doc, ran, effects, js, x);
    }
    forall x ensures NoJs(x) in effects <==> x in ran && Doing(doc, x) == NoJs(x) && HasEffect(doc, x) {
      PerformedIff(doc, ran, effects, js, x);
    }
  }

  lemma RanIsDistinct(doc: Document, a: Action)
    requires doc.Valid() && a in doc.Nodes()
    ensures NoRepeats(Run(doc, a, {}).1)
  {
    var depth := |doc.Nodes() - {}| + 1;
    RunIsCutWalk(doc, a, {}, depth);
    CutIsDistinct(Walk(doc, a, depth), {});
  }

  // ---------- The handler ----------

  lemma {:induction false} EffectsConcat(doc: Document, s: seq<Action>, t: seq<Action>)
    ensures Effects(doc, s + t) == Effects(doc, s) + Effects(doc, t)
  {
    if s == [] {
      assert s + t == t;
    } else {
      EffectsConcat(doc, s[1..], t);
      assert (s + t)[0] == s[0] && (s + t)[1..] == s[1..] + t;
      assert Effects(doc, s + t) == EffectOf(doc, s[0]) + Effects(doc, s[1..] + t);
      hide Effects, EffectOf;
      Regroup(EffectOf(doc, s[0]), Effects(doc, s[1..]), Effects(doc, t));
    }
  }

  lemma ElementsConcat(s: seq<Action>, t: seq<Action>)
    ensures Elements(s + t) == Elements(s) + Elements(t)
  {
    assert forall i :: 0 <= i < |s| ==> (s + t)[i] == s[i];
    assert forall i :: 0 <= i < |t| ==> (s + t)[|s| + i] == t[i];
    assert forall i :: 0 <= i < |s + t| ==> (s + t)[i] in Elements(s) + Elements(t);
  }

  /** The set of visited dictionaries, the actions run and what running them did. */
  datatype State = State(visited: set<Action>, ran: seq<Action>, effects: seq<Effect>)

  /** The state after the actions s have run. */
  function After(doc: Document, st: State, s: seq<Action>): State {
    State(st.visited + Elements(s), st.ran + s, st.effects + Effects(doc, s))
  }

  lemma AfterConcat(doc: Document, st: State, s: seq<Action>, t: seq<Action>)
    ensures After(doc, st, s + t) == After(doc, After(doc, st, s), t)
  {
    ElementsConcat(s, t);
    EffectsConcat(doc, s, t);
  }

  lemma AfterOne(doc: Document, st: State, a: Action)
    ensures After(doc, st, [a]) == State(st.visited + {a}, st.ran + [a], st.effects + EffectOf(doc, a))
    ensures After(doc, st, []) == st
  {
    assert [a][1..] == [] && Effects(doc, [a]) == EffectOf(doc, a) + [];
    assert Elements([a]) == {a} by { assert [a][0] == a; }
  }

  /** One round of the loop over the sub-actions: the whole result, split into what is done and what is left. */
  lemma RunAllRound(doc: Document, subs: seq<Action>, i: nat, visited: set<Action>, done: seq<Action>,
                    whole: (bool, seq<Action>))
    requires doc.Valid() && i < |subs| && forall i :: 0 <= i < |subs| ==> subs[i] in doc.Nodes()
    requires var (ok, rest) := RunAll(doc, subs[i..], visited); whole == (ok, done + rest)
    ensures var (ok, more) := Run(doc, subs[i], visited);
      if !ok then whole == (false, done + more)
      else var (ok', rest) := RunAll(doc, subs[i + 1..], visited + Elements(more)); whole == (ok', done + more + rest)
  {
    assert subs[i..][1..] == subs[i + 1..];
    var (ok, more) := Run(doc, subs[i], visited);
    if ok { Regroup(done, more, RunAll(doc, subs[i + 1..], visited + Elements(more)).1); }
  }

  lemma AllDone(doc: Document, valid: seq<Action> -> bool, subs: seq<Action>, visited: set<Action>, ran: seq<Action>)
    requires doc.Valid()
    ensures RunAll(doc, subs[|subs|..], visited) == (true, []) == FieldRunAll(doc, valid, subs[|subs|..], visited, ran)
  {
  }

  lemma FieldRunAllRound(doc: Document, valid: seq<Action> -> bool, subs: seq<Action>, i: nat, visited: set<Action>,
                         ran: seq<Action>, done: seq<Action>, whole: (bool, seq<Action>))
    requires doc.Valid() && i < |subs| && forall i :: 0 <= i < |subs| ==> subs[i] in doc.Nodes()
    requires var (ok, rest) := FieldRunAll(doc, valid, subs[i..], visited, ran); whole == (ok, done + rest)
    ensures var (ok, more) := FieldRun(doc, valid, subs[i], visited, ran);
      if !ok then whole == (false, done + more)
      else
        var (ok', rest) := FieldRunAll(doc, valid, subs[i + 1..], visited + Elements(more), ran + more);
        whole == (ok', done + more + rest)
  {
    assert subs[i..][1..] == subs[i + 1..];
    var (ok, more) := FieldRun(doc, valid, subs[i], visited, ran);
    if ok { Regroup(done, more, FieldRunAll(doc, valid, subs[i + 1..], visited + Elements(more), ran + more).1); }
  }

  class ActionHandler {
    const doc: Document
    const valid: seq<Action> -> bool
    var visited: set<Action>
    var ran: seq<Action>
    var effects: seq<Effect>

    constructor (d: Document, fieldValid: seq<Action> -> bool)
      ensures doc == d && valid == fieldValid && Now() == State({}, [], [])
    {
      doc, valid, visited, ran, effects := d, fieldValid, {}, [], [];
    }

    ghost function Now(): State
      reads this
    {
      State(visited, ran, effects)
    }

    /** Marks the action as visited and performs it. */
    method Perform(a: Action)
      modifies this
      ensures Now() == After(doc, old(Now()), [a])
    {
      AfterOne(doc, Now(), a);
      visited := visited + {a};
      ran := ran + [a];
      if doc.IsScript(a) {
        if doc.jsPlatform && a.value in doc.nonEmpty {
          effects := effects + [Script(a)];
        }
      } else {
        effects := effects + [NoJs(a)];
      }
    }

    /** ExecuteDocumentOpenAction and ExecuteDocumentPageAction, which differ in the script call alone. */
    method ExecuteDocumentAction(action: Action) returns (ok: bool)
      requires doc.Valid() && action in doc.Nodes()
      modifies this
      ensures var (all, s) := Run(doc, action, old(visited)); ok == all && Now() == After(doc, old(Now()), s)
      decreases |doc.Nodes() - visited|
    {
      AfterOne(doc, Now(), action);
      if action in visited {
        return false;
      }
      Perform(action);
      Shrinks(doc.Nodes(), old(visited), visited, action);
      ghost var here, state, done := visited, Now(), [];
      AfterOne(doc, state, action);
      var i, subs := 0, doc.SubActions(action);
      ghost var whole := RunAll(doc, subs, here);
      assert subs[0..] == subs && [] + whole.1 == whole.1;
      assert Run(doc, action, old(visited)) == (whole.0, [action] + whole.1);
      hide RunAll, Run, Elements, Effects;
      while i < |subs|
        invariant i <= |subs| && here <= visited && Now() == After(doc, state, done)
        invariant var (all, rest) := RunAll(doc, subs[i..], visited); whole == (all, done + rest)
      {
        Smaller(doc.Nodes() - visited, doc.Nodes() - here);
        ghost var (_, more) := Run(doc, subs[i], visited);
        AfterConcat(doc, state, done, more);
        RunAllRound(doc, subs, i, visited, done, whole);
        ok := ExecuteDocumentAction(subs[i]);
        done := done + more;
        if !ok {
          AfterConcat(doc, old(Now()), [action], done);
          return false;
        }
        i := i + 1;
      }
      AllDone(doc, valid, subs, visited, ran);
      assert done + [] == done;
      AfterConcat(doc, old(Now()), [action], done);
      return true;
    }

    method ExecuteFieldAction(action: Action) returns (ok: bool)
      requires doc.Valid() && action in doc.Nodes()
      modifies this
      ensures var (all, s) := FieldRun(doc, valid, action, old(visited), old(ran));
        ok == all && Now() == After(doc, old(Now()), s)
      decreases |doc.Nodes() - visited|
    {
      AfterOne(doc, Now(), action);
      if action in visited {
        return false;
      }
      Perform(action);
      if doc.RunsScript(action) && !valid(ran) {
        return false;
      }
      Shrinks(doc.Nodes(), old(visited), visited, action);
      ghost var here, state, done := visited, Now(), [];
      AfterOne(doc, state, action);
      var i, subs := 0, doc.SubActions(action);
      ghost var whole := FieldRunAll(doc, valid, subs, here, state.ran);
      assert subs[0..] == subs && [] + whole.1 == whole.1;
      assert FieldRun(doc, valid, action, old(visited), old(ran)) == (whole.0, [action] + whole.1);
      hide FieldRunAll, FieldRun, Elements, Effects;
      while i < |subs|
        invariant i <= |subs| && here <= visited && Now() == After(doc, state, done)
        invariant var (all, rest) := FieldRunAll(doc, valid, subs[i..], visited, ran); whole == (all, done + rest)
      {
        Smaller(doc.Nodes() - visited, doc.Nodes() - here);
        ghost var (_, more) := FieldRun(doc, valid, subs[i], visited, ran);
        AfterConcat(doc, state, done, more);
        FieldRunAllRound(doc, valid, subs, i, visited, ran, done, whole);
        ok := ExecuteFieldAction(subs[i]);
        done := done + more;
        if !ok {
          AfterConcat(doc, old(Now()), [action], done);
          return false;
        }
        i := i + 1;
      }
      AllDone(doc, valid, subs, visited, ran);
      assert done + [] == done;
      AfterConcat(doc, old(Now()), [action], done);
      return true;
    }
  }
}
