/** The search for a bookmark by title, over an outline that may share items or run in circles. */
module Bookmarks {
  import opened Basics
  import opened Sequences

  /** A bookmark is a dictionary or null; the null bookmark stands for the outline root. */
  type Bookmark = Option<nat>

  datatype Outline = Outline(dicts: set<nat>, top: Bookmark, first: map<nat, nat>, next: map<nat, nat>) {
    predicate Valid() {
      && (top.Some? ==> top.value in dicts)
      && (forall d :: d in first ==> first[d] in dicts)
      && (forall d :: d in next ==> next[d] in dicts)
    }

    function GetFirstChild(b: Bookmark): Bookmark {
      match b
      case None => top
      case Some(d) => if d in first then Some(first[d]) else None
    }

    function GetNextSibling(b: Bookmark): Bookmark {
      match b
      case None => None
      case Some(d) => if d in next && next[d] != d then Some(next[d]) else None
    }

    function Nodes(): set<Bookmark> {
      {None} + set d | d in dicts :: Some(d)
    }
  }

  // ---------- The specification ----------

  /** FindBookmark at one item: the item found, or null, and the items visited by then. The set hits holds
      the dictionaries whose title equals the wanted one, ignoring case. */
  function Visit(o: Outline, hits: set<nat>, b: Bookmark, visited: set<Bookmark>): (r: (Bookmark, set<Bookmark>))
    requires o.Valid() && b in o.Nodes()
    ensures visited <= r.1 && b in r.1
    decreases |o.Nodes() - visited|, 0
  {
    if b in visited then (None, visited)
    else
      var visited' := visited + {b};
      if b.Some? && b.value in hits then (b, visited')
      else
        Shrinks(o.Nodes(), visited, visited', b);
        Siblings(o, hits, o.GetFirstChild(b), visited')
  }

  /** The loop over the children, from child on. */
  function Siblings(o: Outline, hits: set<nat>, child: Bookmark, visited: set<Bookmark>): (r: (Bookmark, set<Bookmark>))
    requires o.Valid() && child in o.Nodes()
    ensures visited <= r.1
    decreases |o.Nodes() - visited|, 1
  {
    if child == None || child in visited then (None, visited)
    else
      var (found, visited') := Visit(o, hits, child, visited);
      if found.Some? then (found, visited')
      else
        Shrinks(o.Nodes(), visited, visited', child);
        Siblings(o, hits, o.GetNextSibling(child), visited')
  }

  class Finder {
    const outline: Outline
    const hits: set<nat>
    var visited: set<Bookmark>

    constructor (o: Outline, titled: set<nat>)
      ensures outline == o && hits == titled && visited == {}
    {
      outline, hits, visited := o, titled, {};
    }

    method FindBookmark(bookmark: Bookmark) returns (found: Bookmark)
      requires outline.Valid() && bookmark in outline.Nodes()
      modifies this
      ensures (found, visited) == Visit(outline, hits, bookmark, old(visited))
      decreases |outline.Nodes() - visited|
    {
      if bookmark in visited {
        return None;
      }
      visited := visited + {bookmark};
      Shrinks(outline.Nodes(), old(visited), visited, bookmark);
      if bookmark.Some? && bookmark.value in hits {
        return bookmark;
      }
      var child := outline.GetFirstChild(bookmark);
      while child.Some? && child !in visited
        invariant child in outline.Nodes()
        invariant old(visited) + {bookmark} <= visited
        invariant Siblings(outline, hits, child, visited) == Visit(outline, hits, bookmark, old(visited))
        decreases |outline.Nodes() - visited|
      {
        ghost var before := visited;
        Shrinks(outline.Nodes(), old(visited), visited, bookmark);
        found := FindBookmark(child);
        if found.Some? {
          return;
        }
        Shrinks(outline.Nodes(), before, visited, child);
        child := outline.GetNextSibling(child);
      }
      return None;
    }
  }

  // ---------- A match is found exactly when one is reachable ----------

  /** From the root to the top item, and from an item to its first child and to the one after it. */
  predicate Link(o: Outline, a: Bookmark, b: Bookmark) {
    b.Some? &&
    match a
    case None => b == o.top
    case Some(d) => (d in o.first && o.first[d] == b.value) || (d in o.next && o.next[d] == b.value)
  }

  predicate IsPath(o: Outline, p: seq<Bookmark>) {
    p != [] && forall i :: 0 <= i < |p| - 1 ==> Link(o, p[i], p[i + 1])
  }

  ghost predicate Reachable(o: Outline, a: Bookmark, b: Bookmark) {
    exists p :: IsPath(o, p) && p[0] == a && p[|p| - 1] == b
  }

  lemma ReachBefore(o: Outline, a: Bookmark, b: Bookmark, c: Bookmark)
    requires Link(o, a, b) && Reachable(o, b, c)
    ensures Reachable(o, a, c)
  {
    var p :| IsPath(o, p) && p[0] == b && p[|p| - 1] == c;
    assert IsPath(o, [a] + p);
  }

  lemma ReachSelf(o: Outline, a: Bookmark)
    ensures Reachable(o, a, a)
  {
    assert IsPath(o, [a]);
  }

  lemma {:induction false} VisitFindsReachableHit(o: Outline, hits: set<nat>, b: Bookmark, visited: set<Bookmark>)
    requires o.Valid() && b in o.Nodes() && Visit(o, hits, b, visited).0.Some?
    ensures var d := Visit(o, hits, b, visited).0; d.value in hits && Reachable(o, b, d)
    decreases |o.Nodes() - visited|, 0
  {
    var visited' := visited + {b};
    if b.Some? && b.value in hits {
      ReachSelf(o, b);
    } else {
      Shrinks(o.Nodes(), visited, visited', b);
      var c := o.GetFirstChild(b);
      SiblingsFindReachableHit(o, hits, c, visited');
      ReachBefore(o, b, c, Visit(o, hits, b, visited).0);
    }
  }

  lemma {:induction false} SiblingsFindReachableHit(o: Outline, hits: set<nat>, c: Bookmark, visited: set<Bookmark>)
    requires o.Valid() && c in o.Nodes() && Siblings(o, hits, c, visited).0.Some?
    ensures var d := Siblings(o, hits, c, visited).0; c.Some? && d.value in hits && Reachable(o, c, d)
    decreases |o.Nodes() - visited|, 1
  {
    var (found, visited') := Visit(o, hits, c, visited);
    if found.Some? {
      VisitFindsReachableHit(o, hits, c, visited);
    } else {
      Shrinks(o.Nodes(), visited, visited', c);
      var s := o.GetNextSibling(c);
      SiblingsFindReachableHit(o, hits, s, visited');
      ReachBefore(o, c, s, Siblings(o, hits, c, visited).0);
    }
  }

  /** An item is done: it does not match, and its first child was visited. */
  predicate Done(o: Outline, hits: set<nat>, visited: set<Bookmark>, n: Bookmark) {
    && (n.Some? ==> n.value !in hits)
    && (o.GetFirstChild(n) == None || o.GetFirstChild(n) in visited)
  }

  predicate NextVisited(o: Outline, visited: set<Bookmark>, n: Bookmark) {
    o.GetNextSibling(n) == None || o.GetNextSibling(n) in visited
  }

  lemma {:induction false} VisitCloses(o: Outline, hits: set<nat>, b: Bookmark, visited: set<Bookmark>)
    requires o.Valid() && b in o.Nodes() && Visit(o, hits, b, visited).0 == None
    ensures var visited' := Visit(o, hits, b, visited).1;
      forall n :: n in visited' && n !in visited ==>
        Done(o, hits, visited', n) && (n == b || NextVisited(o, visited', n))
    decreases |o.Nodes() - visited|, 0
  {
    if b !in visited {
      Shrinks(o.Nodes(), visited, visited + {b}, b);
      SiblingsClose(o, hits, o.GetFirstChild(b), visited + {b});
    }
  }

  lemma {:induction false} SiblingsClose(o: Outline, hits: set<nat>, c: Bookmark, visited: set<Bookmark>)
    requires o.Valid() && c in o.Nodes() && Siblings(o, hits, c, visited).0 == None
    ensures var visited' := Siblings(o, hits, c, visited).1;
      && (c == None || c in visited')
      && forall n :: n in visited' && n !in visited ==> Done(o, hits, visited', n) && NextVisited(o, visited', n)
    decreases |o.Nodes() - visited|, 1
  {
    if c.Some? && c !in visited {
      var visited1 := Visit(o, hits, c, visited).1;
      VisitCloses(o, hits, c, visited);
      Shrinks(o.Nodes(), visited, visited1, c);
      SiblingsClose(o, hits, o.GetNextSibling(c), visited1);
    }
  }

  lemma {:induction false} ClosedHoldsPath(o: Outline, visited: set<Bookmark>, p: seq<Bookmark>)
    requires IsPath(o, p) && p[0] in visited
    requires forall n :: n in visited ==>
               (o.GetFirstChild(n) == None || o.GetFirstChild(n) in visited) && NextVisited(o, visited, n)
    ensures p[|p| - 1] in visited
  {
    if |p| > 1 {
      assert Link(o, p[0], p[1]);
      assert p[1] in {p[0], o.GetFirstChild(p[0]), o.GetNextSibling(p[0])} && p[1] != None;
      assert forall i :: 0 <= i < |p[1..]| - 1 ==> Link(o, p[1..][i], p[1..][i + 1]) by {
        assert forall i :: 0 <= i < |p| - 1 ==> Link(o, p[i], p[i + 1]);
      }
      ClosedHoldsPath(o, visited, p[1..]);
    }
  }

  /** From the outline root: the search ends with a matching item that first-child and next-sibling links reach,
      and with null exactly when no item they reach matches, however the links are shared or circular. */
  lemma FindsIffReachable(o: Outline, hits: set<nat>)
    requires o.Valid()
    ensures var found := Visit(o, hits, None, {}).0;
      && (found.Some? ==> found.value in hits && Reachable(o, None, found))
      && (found == None ==> forall d :: Reachable(o, None, Some(d)) ==> d !in hits)
  {
    var (found, visited) := Visit(o, hits, None, {});
    if found.Some? {
      VisitFindsReachableHit(o, hits, None, {});
    } else {
      VisitCloses(o, hits, None, {});
      forall d | Reachable(o, None, Some(d)) ensures d !in hits {
        var p :| IsPath(o, p) && p[0] == None && p[|p| - 1] == Some(d);
        ClosedHoldsPath(o, visited, p);
      }
    }
  }

  // ---------- On a tree: the first match in preorder ----------

  /** Items with their children, and the items after them. */
  datatype Forest = Nil | Cons(id: nat, kids: Forest, rest: Forest)

  predicate Represents(o: Outline, b: Bookmark, f: Forest)
    decreases f
  {
    match f
    case Nil => b == None
    case Cons(id, kids, rest) =>
      && b == Some(id)
      && Represents(o, if id in o.first then Some(o.first[id]) else None, kids)
      && Represents(o, if id in o.next && o.next[id] != id then Some(o.next[id]) else None, rest)
  }

  function Preorder(f: Forest): seq<nat> {
    match f
    case Nil => []
    case Cons(id, kids, rest) => [id] + Preorder(kids) + Preorder(rest)
  }

  function FirstHit(s: seq<nat>, hits: set<nat>): Bookmark {
    if s == [] then None else if s[0] in hits then Some(s[0]) else FirstHit(s[1..], hits)
  }

  lemma {:induction false} FirstHitConcat(a: seq<nat>, b: seq<nat>, hits: set<nat>)
    ensures FirstHit(a + b, hits) == if FirstHit(a, hits).Some? then FirstHit(a, hits) else FirstHit(b, hits)
  {
    if a == [] {
      assert a + b == b;
    } else {
      FirstHitConcat(a[1..], b, hits);
      assert (a + b)[1..] == a[1..] + b;
    }
  }

  predicate Unvisited(s: seq<nat>, visited: set<Bookmark>) {
    forall i :: 0 <= i < |s| ==> Some(s[i]) !in visited
  }

  lemma SplitUnvisited(id: nat, a: seq<nat>, b: seq<nat>, visited: set<Bookmark>)
    requires NoRepeats([id] + a + b) && Unvisited([id] + a + b, visited)
    ensures Some(id) !in visited && NoRepeats(a) && NoRepeats(b)
    ensures Unvisited(a, visited + {Some(id)})
    ensures forall seen :: (forall n :: n in seen ==> n in visited + {Some(id)} || (n.Some? && n.value in a)) ==> Unvisited(b, seen)
  {
    var s := [id] + a + b;
    assert s[0] == id;
    assert forall i :: 0 <= i < |a| ==> s[i + 1] == a[i];
    assert forall i :: 0 <= i < |b| ==> s[i + 1 + |a|] == b[i];
  }

  lemma {:induction false} SiblingsOnTree(o: Outline, hits: set<nat>, b: Bookmark, visited: set<Bookmark>, f: Forest)
    requires o.Valid() && b in o.Nodes() && Represents(o, b, f)
    requires NoRepeats(Preorder(f)) && Unvisited(Preorder(f), visited)
    ensures Siblings(o, hits, b, visited).0 == FirstHit(Preorder(f), hits)
    ensures FirstHit(Preorder(f), hits) == None ==>
              forall n :: n in Siblings(o, hits, b, visited).1 ==> n in visited || (n.Some? && n.value in Preorder(f))
    decreases f
  {
    if f.Cons? {
      var (id, kids, rest) := (f.id, f.kids, f.rest);
      SplitUnvisited(id, Preorder(kids), Preorder(rest), visited);
      FirstHitConcat([id] + Preorder(kids), Preorder(rest), hits);
      FirstHitConcat([id], Preorder(kids), hits);
      assert FirstHit([id], hits) == if id in hits then Some(id) else None;
      if id !in hits {
        SiblingsOnTree(o, hits, o.GetFirstChild(b), visited + {b}, kids);
        if FirstHit(Preorder(kids), hits) == None {
          var visited1 := Visit(o, hits, b, visited).1;
          SiblingsOnTree(o, hits, o.GetNextSibling(b), visited1, rest);
        }
      }
    }
  }

  /** On an outline that is a tree, the search returns the first match in preorder. */
  lemma FindsFirstInPreorder(o: Outline, hits: set<nat>, f: Forest)
    requires o.Valid() && Represents(o, o.top, f) && NoRepeats(Preorder(f))
    ensures Visit(o, hits, None, {}).0 == FirstHit(Preorder(f), hits)
  {
    SiblingsOnTree(o, hits, o.top, {None}, f);
    var none: set<Bookmark> := {};
    assert none + {None} == {None};
    assert Visit(o, hits, None, none) == Siblings(o, hits, o.top, none + {None});
  }
}
