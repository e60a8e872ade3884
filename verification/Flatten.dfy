/** FPDFPage_Flatten: a page's annotations become one form at the end of its content. */
module Flatten {
  import opened Basics
  import opened FlattenMatrix
  import opened GraphicsState
  import opened PageContents
  import opened FlattenForm
  import opened FlattenKeys
  import Sequences

  datatype Result = Success | NothingToDo

  class Page {
    var contents: Contents
    var annots: Option<seq<Entry>>
    var xobjects: map<string, nat>

    constructor (contents: Contents, annots: Option<seq<Entry>>, xobjects: map<string, nat>)
      ensures this.contents == contents && this.annots == annots && this.xobjects == xobjects
    {
      this.contents := contents;
      this.annots := annots;
      this.xobjects := xobjects;
    }
  }

  /** The first free name. */
  ghost predicate LeastFree(names: set<string>, key: string) {
    key !in names && exists i: nat :: i < INT_MAX && key == Key(i) && AllUsed(names, i)
  }

  ghost predicate KnownAnnots(store: Store, annots: Option<seq<Entry>>) {
    annots.Some? ==> SlotsBelow(annots.value, store.last + 1)
  }

  lemma {:induction false} ChosenBelow(entries: seq<Entry>, usage: Usage, bound: nat)
    requires SlotsBelow(entries, bound)
    ensures SlotsBelow(Chosen(entries, usage), bound) && AllAnnotations(Chosen(entries, usage))
  {
    hide AppearanceSlot;
    var chosen := Chosen(entries, usage);
    forall i | 0 <= i < |chosen|
      ensures chosen[i].Annotation? && (AppearanceSlot(chosen[i]).At? ==> AppearanceSlot(chosen[i]).n < bound)
    {
      assert chosen[i] in entries;
      var j :| 0 <= j < |entries| && entries[j] == chosen[i];
    }
  }

  /** A new object that nothing refers to changes no content. */
  lemma NewObjectUnseen(store: Store, c: Contents, o: Object)
    requires store.Valid() && Known(store, c) && !o.Parts?
    ensures var after := store.Add(o);
      && after.Valid() && Known(after, c) && Resolve(after, c) == Resolve(store, c)
      && Avoids(after, c, after.last) && ContentOps(after, c) == ContentOps(store, c)
  {
    var after := store.Add(o);
    assert Avoids(store, c, after.last);
    ContentFrame(store, after, c, after.last);
  }

  lemma {:induction false} DueUpToFrame(a: Store, b: Store, f: nat, entries: seq<Entry>, k: nat, s: State)
    requires k <= |entries| && AllAnnotations(entries) && SlotsBelow(entries, f)
    requires f <= a.last && SameExcept(a, b, f)
    ensures DueUpTo(a, entries, k, s) == DueUpTo(b, entries, k, s)
  {
    if k > 0 {
      hide Due, SameExcept;
      DueUpToFrame(a, b, f, entries, k - 1, s);
      DueFrame(a, b, f, entries[k - 1], s);
    }
  }

  /** What the drawn form paints, told by the document it is left in. */
  lemma DrawnFormPaints(ready: Store, f: nat, chosen: seq<Entry>)
    requires EmptyForm(ready, f) && AllAnnotations(chosen) && SlotsBelow(chosen, f) && f <= ready.last
    ensures var now := DrawUpTo(ready, f, chosen, |chosen|);
      && SameExcept(ready, now, f)
      && forall s :: FormPaints(now, f, s) == DueUpTo(now, chosen, |chosen|, s)
  {
    var now := DrawUpTo(ready, f, chosen, |chosen|);
    DrawnFrame(ready, f, chosen, |chosen|);
    hide FormPaints, DueUpTo, DrawUpTo, FormInvariant, Run, UsesKnown;
    forall s ensures FormPaints(now, f, s) == DueUpTo(now, chosen, |chosen|, s) {
      FormPaintsAnnotations(ready, f, chosen, |chosen|, s);
      DueUpToFrame(ready, now, f, chosen, |chosen|, s);
    }
  }

  /** The new form, and the content rewritten around it. */
  lemma ContentReady(store: Store, c: Contents, key: string, f: nat, dict: Dict)
    requires store.Valid() && Known(store, c) && f == store.last + 1 && dict.resources == map[]
    ensures var added := store.Add(Stream(EMPTY_DICT, []));
      var (rewritten, entry) := Rewrite(added, c, key);
      var ready := rewritten.Put(f, Stream(dict, []));
      && added.Valid() && Known(added, c) && rewritten.At(f) == Stream(EMPTY_DICT, [])
      && EmptyForm(ready, f) && f <= ready.last
      && Known(ready, entry) && Avoids(ready, entry, f)
      && ContentOps(ready, entry) == NewOps(!Resolve(store, c).Other?, ContentOps(store, c), key)
      && Target(added, c) != f
      && SameExcept(store, ready, Target(added, c))
  {
    var added := store.Add(Stream(EMPTY_DICT, []));
    NewObjectUnseen(store, c, Stream(EMPTY_DICT, []));
    RewriteMeans(added, c, key);
    RewriteValid(added, c, key);
    RewriteAvoids(added, c, key, f);
    RewriteFrame(added, c, key);
    hide Rewrite, Target, NewOps, ContentOps;
    var (rewritten, entry) := Rewrite(added, c, key);
    PutValid(rewritten, f, Stream(dict, []));
    ContentFrame(rewritten, rewritten.Put(f, Stream(dict, [])), entry, f);
  }

  /** Flattening gives a page whose content ends with the form, under a name the page had not used, and in the form
      every annotation that the usage shows, and touches no other object than the page's content. */
  method FlattenPage(page: Page, document: Document, usage: Usage, crop: Rect) returns (result: Result)
    requires document.Now().Valid() && Known(document.Now(), page.contents)
    requires KnownAnnots(document.Now(), page.annots) && |page.xobjects.Keys| < INT_MAX
    modifies page, document
    ensures result.NothingToDo? <==> old(page.annots).None?
    ensures result.NothingToDo? ==> unchanged(page) && unchanged(document)
    ensures result.Success? ==>
      Flattened(old(document.Now()), old(page.contents), old(page.annots).value, old(page.xobjects), usage, crop,
                document.Now(), page.contents, page.xobjects)
    ensures result.Success? ==> page.annots.None?
  {
    hide Rewrite, NewOps, ContentOps, FormPaints, DueUpTo, DrawUpTo, Target, Known, Store.Valid, Chosen, AllUsed, UseOps,
      Resolve, SlotsBelow, AllAnnotations, Avoids;
    if page.annots.None? { return NothingToDo; }
    var chosen := ParserAnnots(page.annots.value, usage);
    ChosenBelow(page.annots.value, usage, document.last + 1);
    ghost var store := document.Now();
    var f := document.AddIndirectObject(Stream(EMPTY_DICT, []));
    var key := "";
    if chosen != [] {
      SomeKeyIsFree(page.xobjects.Keys, INT_MAX);
      key := FindKey(page.xobjects.Keys);
      assert LeastFree(page.xobjects.Keys, key);
    }
    ghost var dict := if key == "" then EMPTY_DICT else EMPTY_DICT.(box := Some(crop));
    ContentReady(store, page.contents, key, f, dict);
    var contents := SetPageContents(key, page.contents, document);
    ghost var rewritten := document.Now();
    if key != "" {
      page.xobjects := page.xobjects[key := f];
      document.Replace(f, Stream(EMPTY_DICT.(box := Some(crop)), []));
    } else {
      assert rewritten.objects[f := Stream(EMPTY_DICT, [])] == rewritten.objects;
    }
    ghost var ready := document.Now();
    assert ready == rewritten.Put(f, Stream(dict, []));
    DrawAnnotations(chosen, f, document);
    DrawnFormPaints(ready, f, chosen);
    DrawnKeepsBox(ready, f, chosen, |chosen|);
    ContentFrame(ready, document.Now(), contents, f);
    page.contents := contents;
    page.annots := None;
    result := Success;
    assert chosen != [] ==> page.xobjects == old(page.xobjects)[key := f];
    assert ContentOps(document.Now(), contents)
        == NewOps(!Resolve(store, old(page.contents)).Other?, ContentOps(store, old(page.contents)), key);
  }

  /** What flattening makes of a page and its document. */
  ghost predicate Flattened(store: Store, c: Contents, annots: seq<Entry>, xobjects: map<string, nat>, usage: Usage,
                            crop: Rect, now: Store, c': Contents, xobjects': map<string, nat>)
  {
    var (chosen, f) := (Chosen(annots, usage), store.last + 1);
    var existed := !Resolve(store, c).Other?;
    && AllAnnotations(chosen) && now.At(f).Stream?
    && (chosen == [] ==> xobjects' == xobjects && ContentOps(now, c') == NewOps(existed, ContentOps(store, c), ""))
    && (chosen != [] ==> exists key ::
          && LeastFree(xobjects.Keys, key) && xobjects' == xobjects[key := f] && now.At(f).dict.box == Some(crop)
          && ContentOps(now, c') == NewOps(existed, ContentOps(store, c), key))
    && (forall s :: FormPaints(now, f, s) == DueUpTo(now, chosen, |chosen|, s))
    && SameExcept(store, now, Target(store.Add(Stream(EMPTY_DICT, [])), c))
  }

  /** What a page shows: its own marks, and the objects of the forms it uses, the new form opened up. */
  datatype Shown = Mark(mark: int, under: State) | Form(form: Object, ctm: Transform)

  function AsShown(painted: seq<(Object, Transform)>): seq<Shown> {
    if painted == [] then [] else [Form(painted[0].0, painted[0].1)] + AsShown(painted[1..])
  }

  function Shows(store: Store, xobjects: map<string, nat>, f: nat, events: seq<Event>): seq<Shown>
    decreases |events|
  {
    if events == [] then []
    else
      (match events[0]
       case Marked(mark, s) => [Mark(mark, s)]
       case Used(name, s) =>
         if name !in xobjects then []
         else if xobjects[name] == f && store.At(f).Stream? then AsShown(FormPaints(store, f, s))
         else [Form(store.At(xobjects[name]), s.ctm)])
      + Shows(store, xobjects, f, events[1..])
  }

  function PageShows(store: Store, c: Contents, xobjects: map<string, nat>, f: nat, s: State): seq<Shown> {
    Shows(store, xobjects, f, Run(ContentOps(store, c), Fresh(s)).events)
  }

  lemma {:induction false} ShowsFrame(a: Store, b: Store, x: map<string, nat>, x': map<string, nat>, f: nat,
                                      events: seq<Event>)
    requires UsesKnown(x, events)
    requires forall name :: name in x ==> x[name] != f && name in x' && x'[name] == x[name]
                                          && a.At(x[name]) == b.At(x[name])
    ensures Shows(a, x, f, events) == Shows(b, x', f, events)
    decreases |events|
  {
    if events != [] {
      assert UsesKnown(x, events[1..]);
      ShowsFrame(a, b, x, x', f, events[1..]);
    }
  }

  lemma {:induction false} ShowsAppend(store: Store, x: map<string, nat>, f: nat, a: seq<Event>, b: seq<Event>)
    ensures Shows(store, x, f, a + b) == Shows(store, x, f, a) + Shows(store, x, f, b)
    decreases |a|
  {
    hide FormPaints;
    if a == [] {
      assert a + b == b;
    } else {
      assert (a + b)[0] == a[0] && (a + b)[1..] == a[1..] + b;
      ShowsAppend(store, x, f, a[1..], b);
    }
  }

  /** The balanced content, if any, of a page that uses only resources it has, flattened: the page shows what it
      showed, and then, over it and in their order, the appearance streams of the chosen annotations. */
  lemma FlattenedPageShows(store: Store, c: Contents, annots: seq<Entry>, xobjects: map<string, nat>, usage: Usage,
                           crop: Rect, now: Store, c': Contents, xobjects': map<string, nat>, s: State)
    requires store.Valid() && Known(store, c)
    requires Flattened(store, c, annots, xobjects, usage, crop, now, c', xobjects')
    requires NeverDips(ContentOps(store, c), 0) && Depth(ContentOps(store, c), 0) == 0
    requires UsesKnown(xobjects, Run(ContentOps(store, c), Fresh(s)).events)
    requires forall name :: name in xobjects ==>
      xobjects[name] <= store.last && xobjects[name] != Target(store.Add(Stream(EMPTY_DICT, [])), c)
    ensures var (chosen, f) := (Chosen(annots, usage), store.last + 1);
      PageShows(now, c', xobjects', f, s)
        == PageShows(store, c, xobjects, f, s) + AsShown(DueUpTo(now, chosen, |chosen|, s))
  {
    var (chosen, f) := (Chosen(annots, usage), store.last + 1);
    var (page, existed) := (ContentOps(store, c), !Resolve(store, c).Other?);
    var events := Run(page, Fresh(s)).events;
    hide Run, ContentOps, NewOps, Chosen, NeverDips, Depth, FormPaints, DueUpTo, Shows, LeastFree;
    if !existed { NoContentNoOps(store, c); }
    if chosen == [] {
      NewContentRuns(existed, page, "", s);
      ShowsFrame(store, now, xobjects, xobjects', f, events);
      NothingDue(now, s);
      assert events + [] == events;
      assert Shows(now, xobjects', f, events) + [] == Shows(now, xobjects', f, events);
    } else {
      var key :| LeastFree(xobjects.Keys, key) && xobjects' == xobjects[key := f]
                 && ContentOps(now, c') == NewOps(existed, page, key);
      KeyIsName(xobjects.Keys, key);
      KeyIsFree(xobjects.Keys, key);
      NewContentRuns(existed, page, key, s);
      ShowsFrame(store, now, xobjects, xobjects', f, events);
      ShowsAppend(now, xobjects', f, events, [Used(key, s)]);
      ShowsForm(now, xobjects', f, key, s);
    }
  }

  lemma NoContentNoOps(store: Store, c: Contents)
    requires Resolve(store, c).Other?
    ensures ContentOps(store, c) == []
  {
  }

  lemma NothingDue(now: Store, s: State)
    ensures AsShown(DueUpTo(now, [], 0, s)) == []
  {
  }

  lemma KeyIsFree(names: set<string>, key: string)
    requires LeastFree(names, key)
    ensures key !in names
  {
  }

  lemma ShowsForm(store: Store, x: map<string, nat>, f: nat, key: string, s: State)
    requires key in x && x[key] == f && store.At(f).Stream?
    ensures Shows(store, x, f, [Used(key, s)]) == AsShown(FormPaints(store, f, s))
  {
    hide FormPaints, AsShown;
    assert [Used(key, s)][1..] == [];
    assert AsShown(FormPaints(store, f, s)) + [] == AsShown(FormPaints(store, f, s));
  }

  /** Balanced content, rewritten: what it painted, and then the form if there is one. */
  lemma NewContentRuns(existed: bool, page: seq<Op>, key: string, s: State)
    requires NeverDips(page, 0) && Depth(page, 0) == 0 && (!existed ==> page == [])
    ensures Run(NewOps(existed, page, key), Fresh(s)).events
         == Run(page, Fresh(s)).events + (if key == "" then [] else [Used(key, s)])
  {
    var before := Run(page, Fresh(s));
    assert before.events + [] == before.events;
    if existed && key != "" {
      assert NewOps(existed, page, key) == WithForm(page, key);
      KeepsMeaningIff(page, key, s);
    } else if existed {
      assert NewOps(existed, page, key) == Wrapped(page) + [] == Wrapped(page);
      WrapNeverDips(page, s);
    } else if key != "" {
      assert NewOps(existed, page, key) == UseOps(key);
      RunUse(key, Fresh(s));
    }
  }

  lemma KeyIsName(names: set<string>, key: string)
    requires LeastFree(names, key)
    ensures key != ""
  {
    var i: nat :| i < INT_MAX && key == Key(i) && AllUsed(names, i);
    assert |key| >= 3;
  }
}
