/** A document as its numbered objects, and the rewriting of a page's content so that it ends with a form. */
module PageContents {
  import opened Basics
  import opened FlattenMatrix
  import opened GraphicsState
  import Sequences

  /** What the dictionary of a stream says about its use as a form. */
  datatype Dict = Dict(rect: Option<Rect>, box: Option<Rect>, matrix: Matrix, resources: map<string, nat>)

  const EMPTY_DICT := Dict(None, None, IDENTITY, map[])

  /** An array holds references by number. */
  datatype Object = Stream(dict: Dict, ops: seq<Op>) | Parts(items: seq<nat>) | Other

  /** The indirect objects, and the last number given out. */
  datatype Store = Store(objects: map<nat, Object>, last: nat) {
    predicate Valid() {
      && (forall n :: n in objects ==> 0 < n <= last)
      && (forall n :: n in objects && objects[n].Parts? ==> Below(objects[n].items, last))
    }

    function At(n: nat): Object { if n in objects then objects[n] else Other }

    function Add(o: Object): Store { Store(objects[last + 1 := o], last + 1) }

    function Put(n: nat, o: Object): Store { Store(objects[n := o], last) }
  }

  predicate Below(items: seq<nat>, last: nat) { forall i :: 0 <= i < |items| ==> items[i] <= last }

  /** The contents entry of a page dictionary. */
  datatype Contents = Absent | Direct(inline: Object) | Reference(n: nat)

  function Resolve(store: Store, c: Contents): Object {
    match c
    case Absent => Other
    case Direct(o) => o
    case Reference(n) => store.At(n)
  }

  /** The entry refers to no number that has not been given out. */
  predicate Known(store: Store, c: Contents) {
    match c
    case Absent => true
    case Direct(o) => o.Parts? ==> Below(o.items, store.last)
    case Reference(n) => n <= store.last
  }

  /** The streams of an array follow each other; what is not a stream adds nothing. */
  function JoinParts(store: Store, items: seq<nat>): seq<Op> {
    if items == [] then []
    else (match store.At(items[0]) case Stream(_, ops) => ops case _ => []) + JoinParts(store, items[1..])
  }

  function ObjectOps(store: Store, o: Object): seq<Op> {
    match o
    case Stream(_, ops) => ops
    case Parts(items) => JoinParts(store, items)
    case Other => []
  }

  /** The operators that a page with this contents entry runs. */
  function ContentOps(store: Store, c: Contents): seq<Op> { ObjectOps(store, Resolve(store, c)) }

  function ContentStream(ops: seq<Op>): Object { Stream(EMPTY_DICT, ops) }

  /** SetPageContents as a function of the document and the entry. */
  function Rewrite(store: Store, c: Contents, key: string): (Store, Contents) {
    var use := ContentStream(UseOps(key));
    match Resolve(store, c)
    case Other => if key == "" then (store, c) else (store.Add(use), Reference(store.last + 1))
    case Parts(items) =>
      var (named, n) := MadeIndirect(store, c);
      var closed := named.Add(ContentStream([Save])).Add(ContentStream([Restore]));
      var around := [closed.last - 1] + items + [closed.last];
      if key == "" then (closed.Put(n, Parts(around)), Reference(n))
      else (closed.Add(use).Put(n, Parts(around + [closed.last + 1])), Reference(n))
    case Stream(dict, ops) =>
      var (named, n) := MadeIndirect(store, c);
      var listed := named.Put(n, Stream(dict, Wrapped(ops))).Add(Parts([n]));
      if key == "" then (listed, Reference(listed.last))
      else (listed.Add(use).Put(listed.last, Parts([n, listed.last + 1])), Reference(listed.last))
  }

  /** ConvertToIndirectObjectFor: a direct object gets a number of its own. */
  function MadeIndirect(store: Store, c: Contents): (Store, nat) {
    match c
    case Reference(n) => (store, n)
    case Direct(o) => (store.Add(o), store.last + 1)
    case Absent => (store, 0)
  }

  class Document {
    var objects: map<nat, Object>
    var last: nat

    constructor (store: Store)
      ensures Now() == store
    {
      objects := store.objects;
      last := store.last;
    }

    function Now(): Store
      reads this
    {
      Store(objects, last)
    }

    method AddIndirectObject(o: Object) returns (n: nat)
      modifies this
      ensures Now() == old(Now()).Add(o) && n == last
    {
      last := last + 1;
      objects := objects[last := o];
      n := last;
    }

    method Replace(n: nat, o: Object)
      modifies this
      ensures Now() == old(Now()).Put(n, o)
    {
      objects := objects[n := o];
    }
  }

  lemma AddThenPut(store: Store, n: nat, o: Object, added: Object, o': Object)
    requires n <= store.last
    ensures store.Put(n, o).Add(added).Put(n, o') == store.Add(added).Put(n, o')
  {
    assert store.objects[n := o][store.last + 1 := added][n := o'] == store.objects[store.last + 1 := added][n := o'];
  }

  method SetPageContents(key: string, c: Contents, document: Document) returns (r: Contents)
    requires document.Now().Valid() && Known(document.Now(), c)
    modifies document
    ensures (document.Now(), r) == Rewrite(old(document.Now()), c, key)
  {
    var contents := Resolve(document.Now(), c);
    if contents.Other? {
      if key != "" {
        var n := document.AddIndirectObject(ContentStream(UseOps(key)));
        return Reference(n);
      }
      return c;
    }
    var n: nat;
    if c.Direct? { n := document.AddIndirectObject(c.inline); } else { n := c.n; }
    var list: nat;
    var items: seq<nat>;
    ghost var named := document.Now();
    ghost var closed := named.Add(ContentStream([Save])).Add(ContentStream([Restore]));
    if contents.Parts? {
      list := n;
      var q := document.AddIndirectObject(ContentStream([Save]));
      document.Replace(list, Parts([q] + contents.items));
      AddThenPut(named.Add(ContentStream([Save])), list, Parts([q] + contents.items), ContentStream([Restore]),
                 Parts([q] + contents.items + [q + 1]));
      var closing := document.AddIndirectObject(ContentStream([Restore]));
      items := [q] + contents.items + [closing];
      document.Replace(list, Parts(items));
    } else {
      document.Replace(n, Stream(contents.dict, Wrapped(contents.ops)));
      items := [n];
      list := document.AddIndirectObject(Parts(items));
    }
    if key != "" {
      var use := document.AddIndirectObject(ContentStream(UseOps(key)));
      document.Replace(list, Parts(items + [use]));
      assert [n] + [use] == [n, use];
      if contents.Parts? {
        AddThenPut(closed, list, Parts(items), ContentStream(UseOps(key)), Parts(items + [use]));
      }
    }
    r := Reference(list);
  }

  /** What the rewritten page runs. */
  function NewOps(existed: bool, page: seq<Op>, key: string): seq<Op> {
    (if existed then Wrapped(page) else []) + (if key == "" then [] else UseOps(key))
  }

  lemma {:induction false} JoinFrame(a: Store, b: Store, items: seq<nat>)
    requires forall i :: 0 <= i < |items| ==> StreamOps(a, items[i]) == StreamOps(b, items[i])
    ensures JoinParts(a, items) == JoinParts(b, items)
  {
    if items != [] {
      assert StreamOps(a, items[0]) == StreamOps(b, items[0]);
      JoinFrame(a, b, items[1..]);
    }
  }

  /** What an item of an array adds to the content. */
  function StreamOps(store: Store, n: nat): seq<Op> {
    match store.At(n) case Stream(_, ops) => ops case _ => []
  }

  lemma {:induction false} JoinAppend(store: Store, a: seq<nat>, b: seq<nat>)
    ensures JoinParts(store, a + b) == JoinParts(store, a) + JoinParts(store, b)
  {
    if a == [] {
      assert a + b == b;
    } else {
      assert a + b == [a[0]] + (a[1..] + b);
      JoinAppend(store, a[1..], b);
      hide JoinParts;
      Sequences.Regroup(StreamOps(store, a[0]), JoinParts(store, a[1..]), JoinParts(store, b));
      JoinFirst(store, a); JoinFirst(store, a + b);
    }
  }

  lemma JoinFirst(store: Store, items: seq<nat>)
    requires items != []
    ensures JoinParts(store, items) == StreamOps(store, items[0]) + JoinParts(store, items[1..])
  {
  }

  lemma JoinOne(store: Store, n: nat)
    ensures JoinParts(store, [n]) == StreamOps(store, n)
  {
    JoinFirst(store, [n]);
    assert [n][1..] == [];
  }

  /** Every stream up to a number other than one has stayed as it was. */
  predicate SameExcept(a: Store, b: Store, target: nat) {
    forall n: nat :: n <= a.last && n != target ==> b.At(n) == a.At(n)
  }

  /** The number of the object the contents entry stands for, once it has one. */
  function Target(store: Store, c: Contents): nat { MadeIndirect(store, c).1 }

  /** Nothing else is touched, whatever the form of the contents. */
  lemma RewriteFrame(store: Store, c: Contents, key: string)
    requires store.Valid() && Known(store, c)
    ensures SameExcept(store, Rewrite(store, c, key).0, Target(store, c))
    ensures store.last <= Rewrite(store, c, key).0.last
    ensures forall n :: n in store.objects ==> n in Rewrite(store, c, key).0.objects
    ensures c.Reference? && Resolve(store, c).Other? ==> Rewrite(store, c, key).0.At(c.n) == store.At(c.n)
  {
    hide Wrapped, UseOps;
  }

  lemma WrappedParts(store: Store, items: seq<nat>, q: nat, closing: nat, page: seq<Op>)
    requires StreamOps(store, q) == [Save] && StreamOps(store, closing) == [Restore]
    requires JoinParts(store, items) == page
    ensures JoinParts(store, [q] + items + [closing]) == Wrapped(page)
  {
    hide JoinParts, StreamOps;
    JoinAppend(store, [q] + items, [closing]);
    JoinAppend(store, [q], items);
    JoinOne(store, q);
    JoinOne(store, closing);
  }

  lemma ArrayFormObjects(store: Store, c: Contents, key: string)
    requires store.Valid() && Known(store, c) && Resolve(store, c).Parts?
    ensures var (after, entry) := Rewrite(store, c, key);
      var (items, n, q) := (Resolve(store, c).items, Target(store, c), MadeIndirect(store, c).0.last + 1);
      && store.last < q && entry == Reference(n) && n < q
      && StreamOps(after, q) == [Save] && StreamOps(after, q + 1) == [Restore]
      && after.At(n) == Parts([q] + items + [q + 1] + (if key == "" then [] else [q + 2]))
      && (key != "" ==> StreamOps(after, q + 2) == UseOps(key))
  {
    hide Wrapped, UseOps, Store.Valid;
    TargetKnown(store, c);
    var items := Resolve(store, c).items;
    var q := MadeIndirect(store, c).0.last + 1;
    if key == "" { assert [q] + items + [q + 1] + [] == [q] + items + [q + 1]; }
  }

  lemma TargetKnown(store: Store, c: Contents)
    requires store.Valid() && Known(store, c)
    ensures store.last <= MadeIndirect(store, c).0.last && Target(store, c) <= MadeIndirect(store, c).0.last
  {
  }

  /** The array form: the array's own object holds q, the old parts, Q and the form, in this order. */
  lemma ArrayFormMeans(store: Store, c: Contents, key: string)
    requires store.Valid() && Known(store, c) && Resolve(store, c).Parts?
    ensures var (after, entry) := Rewrite(store, c, key);
      && entry == Reference(Target(store, c))
      && ContentOps(after, entry) == NewOps(true, ContentOps(store, c), key)
  {
    var (after, entry) := Rewrite(store, c, key);
    var items := Resolve(store, c).items;
    var q := MadeIndirect(store, c).0.last + 1;
    ArrayFormObjects(store, c, key);
    ItemsKept(store, c, key);
    hide Rewrite, Wrapped, UseOps, StreamOps, MadeIndirect, Target;
    JoinFrame(after, store, items);
    WrappedParts(after, items, q, q + 1, ContentOps(store, c));
    var closed: seq<nat> := [q] + items + [q + 1];
    if key == "" {
      assert closed + [] == closed;
      assert Wrapped(ContentOps(store, c)) + [] == Wrapped(ContentOps(store, c));
    } else {
      FollowedByUse(after, closed, q + 2, key);
    }
  }

  lemma FollowedByUse(store: Store, items: seq<nat>, use: nat, key: string)
    requires StreamOps(store, use) == UseOps(key)
    ensures JoinParts(store, items + [use]) == JoinParts(store, items) + UseOps(key)
  {
    hide StreamOps, JoinParts, UseOps;
    JoinAppend(store, items, [use]);
    JoinOne(store, use);
  }

  lemma ItemsKept(store: Store, c: Contents, key: string)
    requires store.Valid() && Known(store, c) && Resolve(store, c).Parts?
    ensures var (after, items) := (Rewrite(store, c, key).0, Resolve(store, c).items);
      forall i :: 0 <= i < |items| ==> StreamOps(after, items[i]) == StreamOps(store, items[i])
  {
    RewriteFrame(store, c, key);
    ArrayFormObjects(store, c, key);
    hide Rewrite;
    var (after, items) := (Rewrite(store, c, key).0, Resolve(store, c).items);
    forall i | 0 <= i < |items| ensures StreamOps(after, items[i]) == StreamOps(store, items[i]) {
      assert items[i] <= store.last;
    }
  }

  /** The stream form: the stream's own data is wrapped, and a new array holds it and the form. */
  lemma StreamFormMeans(store: Store, c: Contents, key: string)
    requires store.Valid() && Known(store, c) && Resolve(store, c).Stream?
    ensures var (after, entry) := Rewrite(store, c, key);
      && ContentOps(after, entry) == NewOps(true, ContentOps(store, c), key)
      && after.At(Target(store, c)) == Resolve(store, c).(ops := Wrapped(ContentOps(store, c)))
  {
    hide Wrapped, UseOps;
    var (after, entry) := Rewrite(store, c, key);
    var n := Target(store, c);
    var wrapped := Wrapped(ContentOps(store, c));
    assert StreamOps(after, n) == wrapped;
    JoinOne(after, n);
    if key == "" {
      assert after.At(entry.n) == Parts([n]);
      assert wrapped + [] == wrapped;
    } else {
      assert after.At(entry.n) == Parts([n, after.last]);
      assert [n, after.last] == [n] + [after.last];
      assert StreamOps(after, after.last) == UseOps(key);
      JoinAppend(after, [n], [after.last]);
      JoinOne(after, after.last);
    }
  }

  /** The two forms of the contents entry come to have the same meaning. */
  lemma RewriteMeans(store: Store, c: Contents, key: string)
    requires store.Valid() && Known(store, c)
    ensures var (after, entry) := Rewrite(store, c, key);
      ContentOps(after, entry) == NewOps(!Resolve(store, c).Other?, ContentOps(store, c), key)
  {
    hide Wrapped, UseOps;
    match Resolve(store, c)
    case Parts(_) => ArrayFormMeans(store, c, key);
    case Stream(_, _) => StreamFormMeans(store, c, key);
    case Other => assert [] + UseOps(key) == UseOps(key);
  }

  /** The contents entry neither is nor lists the object with number n. */
  predicate Avoids(store: Store, c: Contents, n: nat) {
    c != Reference(n) && (Resolve(store, c).Parts? ==> n !in Resolve(store, c).items)
  }

  lemma ContentFrame(a: Store, b: Store, c: Contents, n: nat)
    requires a.Valid() && Known(a, c) && SameExcept(a, b, n) && Avoids(a, c, n)
    ensures ContentOps(a, c) == ContentOps(b, c)
  {
    assert Resolve(a, c) == Resolve(b, c);
    if Resolve(a, c).Parts? {
      var items := Resolve(a, c).items;
      forall i | 0 <= i < |items| ensures StreamOps(a, items[i]) == StreamOps(b, items[i]) {
        assert items[i] <= a.last && items[i] != n;
      }
      JoinFrame(a, b, items);
    }
  }

  /** Another page's content changes: its entry is the rewritten object, or it is an array that lists the rewritten
      object while that is a stream. */
  predicate Touched(store: Store, c: Contents, other: Contents) {
    var n := Target(store, c);
    && !Resolve(store, c).Other?
    && (other == Reference(n)
        || (Resolve(store, other).Parts? && n in Resolve(store, other).items && Resolve(store, c).Stream?))
  }

  /** Which pages of the document show something else once one page has been rewritten. */
  lemma OtherPageKeepsContentIff(store: Store, c: Contents, key: string, other: Contents)
    requires store.Valid() && Known(store, c) && Known(store, other)
    ensures ContentOps(Rewrite(store, c, key).0, other) == ContentOps(store, other) <==> !Touched(store, c, other)
  {
    var (after, n) := (Rewrite(store, c, key).0, Target(store, c));
    RewriteFrame(store, c, key);
    hide Rewrite, Wrapped, UseOps;
    if other == Reference(n) {
      if !Resolve(store, c).Other? { SharedEntryChanges(store, c, key); }
    } else if Resolve(store, other).Parts? && n in Resolve(store, other).items {
      if Resolve(store, c).Stream? {
        ListedStreamGrows(store, c, key, other);
      } else {
        ListedArrayIsNothing(store, c, key, other);
      }
    } else {
      ContentFrame(store, after, other, n);
    }
  }

  lemma WrappedIsLonger(ops: seq<Op>)
    ensures |Wrapped(ops)| == |ops| + 2
  {
  }

  lemma SharedEntryChanges(store: Store, c: Contents, key: string)
    requires store.Valid() && Known(store, c) && !Resolve(store, c).Other? && Known(store, Reference(Target(store, c)))
    ensures var shared := Reference(Target(store, c));
      |ContentOps(Rewrite(store, c, key).0, shared)| > |ContentOps(store, shared)|
  {
    hide Wrapped, UseOps;
    assert c == Reference(Target(store, c));
    WrappedIsLonger(ContentOps(store, c));
    if Resolve(store, c).Stream? { StreamFormMeans(store, c, key); } else { ArrayFormMeans(store, c, key); }
  }

  lemma ItemsStay(store: Store, c: Contents, key: string, other: Contents)
    requires store.Valid() && Known(store, c) && Known(store, other) && Resolve(store, other).Parts?
    requires other != Reference(Target(store, c))
    ensures var (after, items) := (Rewrite(store, c, key).0, Resolve(store, other).items);
      && Resolve(after, other) == Resolve(store, other)
      && forall i :: 0 <= i < |items| && items[i] != Target(store, c) ==>
           StreamOps(after, items[i]) == StreamOps(store, items[i])
  {
    RewriteFrame(store, c, key);
    hide Rewrite;
    assert Below(Resolve(store, other).items, store.last);
  }

  /** An array that lists the wrapped stream runs more, by q and Q at each place. */
  lemma ListedStreamGrows(store: Store, c: Contents, key: string, other: Contents)
    requires store.Valid() && Known(store, c) && Known(store, other) && Resolve(store, c).Stream?
    requires Resolve(store, other).Parts? && Target(store, c) in Resolve(store, other).items
    ensures ContentOps(Rewrite(store, c, key).0, other) == ContentOps(WithWrapped(store, c), other)
    ensures |ContentOps(Rewrite(store, c, key).0, other)| > |ContentOps(store, other)|
  {
    var (after, n, items) := (Rewrite(store, c, key).0, Target(store, c), Resolve(store, other).items);
    assert Below(items, store.last);
    assert c == Reference(n);
    StreamFormMeans(store, c, key);
    ItemsStay(store, c, key, other);
    hide Rewrite, Wrapped, UseOps;
    WrappedIsLonger(ContentOps(store, c));
    JoinFrame(after, WithWrapped(store, c), items);
    JoinGrows(store, after, items, n);
  }

  /** The document with the stream that the entry stands for wrapped in place. */
  function WithWrapped(store: Store, c: Contents): Store
    requires Resolve(store, c).Stream?
  {
    store.Put(Target(store, c), Resolve(store, c).(ops := Wrapped(Resolve(store, c).ops)))
  }

  lemma {:induction false} JoinGrows(a: Store, b: Store, items: seq<nat>, n: nat)
    requires |StreamOps(a, n)| < |StreamOps(b, n)|
    requires forall i :: 0 <= i < |items| && items[i] != n ==> StreamOps(a, items[i]) == StreamOps(b, items[i])
    ensures |JoinParts(a, items)| <= |JoinParts(b, items)|
    ensures n in items ==> |JoinParts(a, items)| < |JoinParts(b, items)|
  {
    if items != [] {
      JoinGrows(a, b, items[1..], n);
      JoinFirst(a, items);
      JoinFirst(b, items);
      hide StreamOps, JoinParts;
    }
  }

  /** An array inside an array adds nothing, before and after. */
  lemma ListedArrayIsNothing(store: Store, c: Contents, key: string, other: Contents)
    requires store.Valid() && Known(store, c) && Known(store, other) && !Resolve(store, c).Stream?
    requires Resolve(store, other).Parts? && other != Reference(Target(store, c))
    ensures ContentOps(Rewrite(store, c, key).0, other) == ContentOps(store, other)
  {
    var (after, n, items) := (Rewrite(store, c, key).0, Target(store, c), Resolve(store, other).items);
    ItemsStay(store, c, key, other);
    assert Below(items, store.last);
    if n in items { TargetIsNoStream(store, c, key); }
    hide Rewrite;
    forall i | 0 <= i < |items| ensures StreamOps(after, items[i]) == StreamOps(store, items[i]) {}
    JoinFrame(after, store, items);
  }

  lemma TargetIsNoStream(store: Store, c: Contents, key: string)
    requires store.Valid() && Known(store, c) && !Resolve(store, c).Stream? && Target(store, c) <= store.last
    ensures StreamOps(Rewrite(store, c, key).0, Target(store, c)) == StreamOps(store, Target(store, c))
  {
    hide Wrapped, UseOps;
    if Resolve(store, c).Parts? {
      ArrayFormObjects(store, c, key);
    } else {
      RewriteFrame(store, c, key);
    }
  }

  lemma AddValid(store: Store, o: Object)
    requires store.Valid() && (o.Parts? ==> Below(o.items, store.last + 1))
    ensures store.Add(o).Valid()
  {
  }

  lemma PutValid(store: Store, n: nat, o: Object)
    requires store.Valid() && 0 < n <= store.last && (o.Parts? ==> Below(o.items, store.last))
    ensures store.Put(n, o).Valid()
  {
  }

  lemma MadeIndirectValid(store: Store, c: Contents)
    requires store.Valid() && Known(store, c) && !Resolve(store, c).Other?
    ensures var (named, n) := MadeIndirect(store, c);
      && named.Valid() && 0 < n <= named.last && store.last <= named.last
      && (Resolve(store, c).Parts? ==> Below(Resolve(store, c).items, store.last))
  {
  }

  lemma ArrayFormValid(store: Store, c: Contents, key: string)
    requires store.Valid() && Known(store, c) && Resolve(store, c).Parts?
    ensures var (after, entry) := Rewrite(store, c, key); after.Valid() && Known(after, entry)
  {
    MadeIndirectValid(store, c);
    hide Store.Valid, Wrapped, UseOps, MadeIndirect;
    var items := Resolve(store, c).items;
    var (named, n) := MadeIndirect(store, c);
    var open := named.Add(ContentStream([Save]));
    var closed := open.Add(ContentStream([Restore]));
    AddValid(named, ContentStream([Save]));
    AddValid(open, ContentStream([Restore]));
    AddValid(closed, ContentStream(UseOps(key)));
    var around: seq<nat> := [closed.last - 1] + items + [closed.last];
    if key == "" { PutValid(closed, n, Parts(around)); }
    else { PutValid(closed.Add(ContentStream(UseOps(key))), n, Parts(around + [closed.last + 1])); }
  }

  lemma StreamFormValid(store: Store, c: Contents, key: string)
    requires store.Valid() && Known(store, c) && Resolve(store, c).Stream?
    ensures var (after, entry) := Rewrite(store, c, key); after.Valid() && Known(after, entry)
  {
    MadeIndirectValid(store, c);
    hide Store.Valid, Wrapped, UseOps, MadeIndirect;
    var (named, n) := MadeIndirect(store, c);
    var wrapped := Resolve(store, c).(ops := Wrapped(Resolve(store, c).ops));
    PutValid(named, n, wrapped);
    AddValid(named.Put(n, wrapped), Parts([n]));
    var listed := named.Put(n, wrapped).Add(Parts([n]));
    if key != "" {
      AddValid(listed, ContentStream(UseOps(key)));
      PutValid(listed.Add(ContentStream(UseOps(key))), listed.last, Parts([n, listed.last + 1]));
    }
  }

  lemma RewriteValid(store: Store, c: Contents, key: string)
    requires store.Valid() && Known(store, c)
    ensures var (after, entry) := Rewrite(store, c, key); after.Valid() && Known(after, entry)
  {
    match Resolve(store, c)
    case Parts(_) => ArrayFormValid(store, c, key);
    case Stream(_, _) => StreamFormValid(store, c, key);
    case Other =>
      hide UseOps;
      AddValid(store, ContentStream(UseOps(key)));
  }

  lemma RewriteAvoids(store: Store, c: Contents, key: string, n: nat)
    requires store.Valid() && Known(store, c) && n in store.objects && Avoids(store, c, n)
    ensures var (after, entry) := Rewrite(store, c, key); Avoids(after, entry, n)
    ensures Target(store, c) != n
  {
    hide Wrapped, UseOps;
    if Resolve(store, c).Parts? {
      ArrayFormObjects(store, c, key);
      hide Rewrite;
    }
  }

  /** What the touched pages show: with the same entry, a stream only gains q and Q, but an array comes to paint the
      form of the rewritten page too; an array that lists the stream gains q and Q where it lists it. */
  lemma SharedContents(store: Store, c: Contents, key: string, other: Contents)
    requires store.Valid() && Known(store, c) && Known(store, other) && Touched(store, c, other)
    ensures var after := Rewrite(store, c, key).0;
      && (other == c && Resolve(store, c).Stream? ==> ContentOps(after, other) == Wrapped(ContentOps(store, other)))
      && (other == c && Resolve(store, c).Parts? ==>
                         ContentOps(after, other) == NewOps(true, ContentOps(store, other), key))
      && (other != c ==> Resolve(store, c).Stream?
                         && ContentOps(after, other) == ContentOps(WithWrapped(store, c), other))
  {
    hide Wrapped, UseOps;
    if other == c {
      if Resolve(store, c).Stream? { StreamFormMeans(store, c, key); } else { ArrayFormMeans(store, c, key); }
    } else {
      ListedStreamGrows(store, c, key, other);
    }
  }

  /** Two pages with one empty contents array: flattening the one puts its form on the other. */
  lemma SharedArrayShowsForm(key: string)
    requires key != ""
    ensures var (store, page) := (Store(map[1 := Parts([])], 1), Reference(1));
      ContentOps(store, page) == [] && ContentOps(Rewrite(store, page, key).0, page) == [Save, Restore] + UseOps(key)
  {
    var (store, page) := (Store(map[1 := Parts([])], 1), Reference(1));
    RewriteMeans(store, page, key);
  }
}
