/** What LoadUnicode does with each entry of the multimap, told from the entry's neighbours alone: written to the
    single-code table, put on a list, or counted in a run. */
module EntryRoles {
  import opened ToUnicode

  // ---------- Roles ----------

  /** The code of the entry follows that of the entry before. */
  predicate Steps(m: seq<Entry>, i: nat) { 0 < i < |m| && m[i].code == m[i - 1].code + 1 }

  /** It does so within one block of 256 codes. */
  predicate InBlock(m: seq<Entry>, i: nat) { Steps(m, i) && m[i].code % 256 != 0 }

  /** The unicode of the entry follows that of the entry before. */
  predicate Counts(m: seq<Entry>, i: nat) { 0 < i < |m| && m[i].uni == m[i - 1].uni + 1 }

  /** The first entry of the stretch of successive codes in one block that the entry belongs to. */
  function Stretch(m: seq<Entry>, i: nat): (s: nat)
    ensures s <= i
    ensures !InBlock(m, s)
    ensures forall k :: s < k <= i ==> InBlock(m, k)
  {
    if InBlock(m, i) then Stretch(m, i - 1) else i
  }

  /** An entry of a stretch, from a on, has a neighbour there that its unicode follows or that follows its unicode. */
  predicate Paired(m: seq<Entry>, a: nat, j: nat) {
    (a < j && Counts(m, j)) || (InBlock(m, j + 1) && Counts(m, j + 1))
  }

  /** From a up to before i, the unicodes count up in pieces of two or more. */
  predicate ThroughRuns(m: seq<Entry>, a: nat, i: nat) { forall j :: a <= j < i ==> Paired(m, a, j) }

  /** Where a stretch is entered: at its first entry, or past it when the last entry of the block before stands
      alone and takes the first of this one with it. */
  function Start(m: seq<Entry>, i: nat): nat
    decreases i, 0
  {
    var s := Stretch(m, i);
    if Steps(m, s) && Opens(m, s - 1) then s + 1 else s
  }

  /** A range, or a single entry, begins here: everything before in the stretch is in runs, and no run goes on. */
  predicate Opens(m: seq<Entry>, i: nat)
    decreases i, 1
  {
    var a := Start(m, i);
    a <= i && ThroughRuns(m, a, i) && (a < i ==> !Counts(m, i))
  }

  /** Written by itself. */
  predicate Lone(m: seq<Entry>, i: nat) { Start(m, i) > i || (Opens(m, i) && !InBlock(m, i + 1)) }

  predicate InRun(m: seq<Entry>, i: nat) { Start(m, i) <= i && ThroughRuns(m, Start(m, i), i + 1) }

  predicate Listed(m: seq<Entry>, i: nat) { !Lone(m, i) && !InRun(m, i) }

  /** The first entry of the run that entry i is in. */
  function RunStart(m: seq<Entry>, i: nat): (s: nat)
    ensures s <= i
  {
    if Start(m, i) < i && Counts(m, i) then RunStart(m, i - 1) else i
  }

  /** Entry i is in a run that an earlier entry begins. */
  predicate Joins(m: seq<Entry>, i: nat) { InRun(m, i) && RunStart(m, i) < i }

  // ---------- The roles are those of the encoder ----------

  /** Entries of one stretch are entered from one place. */
  lemma {:induction false} SameStart(m: seq<Entry>, i: nat, k: nat)
    requires i <= k && forall j :: i < j <= k ==> InBlock(m, j)
    ensures Stretch(m, k) == Stretch(m, i) && Start(m, k) == Start(m, i)
  {
    if i < k {
      assert InBlock(m, k);
      SameStart(m, i, k - 1);
    }
  }

  lemma StartsAnew(m: seq<Entry>, i: nat)
    requires !Steps(m, i)
    ensures Start(m, i) == i && Opens(m, i)
  {
  }

  lemma OpensBlock(m: seq<Entry>, i: nat)
    requires Steps(m, i) && !InBlock(m, i) && !Opens(m, i - 1)
    ensures Start(m, i) == i && Opens(m, i)
  {
  }

  /** The second of a pair across a block boundary, and the entry after it. */
  lemma AfterPair(m: seq<Entry>, i: nat)
    requires Opens(m, i) && Steps(m, i + 1) && !InBlock(m, i + 1)
    ensures Lone(m, i) && Lone(m, i + 1) && Opens(m, i + 2)
  {
    assert Start(m, i + 1) == i + 2;
    if InBlock(m, i + 2) {
      SameStart(m, i + 1, i + 2);
    } else if i + 2 < |m| && Steps(m, i + 2) {
      assert false;
    } else {
      StartsAnew(m, i + 2);
    }
  }

  lemma ListRoles(m: seq<Entry>, i: nat, e: nat)
    requires i + 2 <= e <= |m| && Opens(m, i) && InBlock(m, i + 1) && !Counts(m, i + 1)
    requires forall k :: i < k < e ==> InBlock(m, k)
    requires !InBlock(m, e)
    ensures forall k :: i <= k < e ==> Listed(m, k)
    ensures Opens(m, e)
  {
    var a := Start(m, i);
    assert !Paired(m, a, i);
    forall k | i <= k < e ensures Listed(m, k) && (i < k ==> !Opens(m, k)) {
      SameStart(m, i, k);
      assert !ThroughRuns(m, a, k + 1);
      if i < k { assert !ThroughRuns(m, a, k); }
    }
    if Steps(m, e) { OpensBlock(m, e); } else { StartsAnew(m, e); }
  }

  lemma RunRoles(m: seq<Entry>, i: nat, e: nat)
    requires i + 2 <= e <= |m| && Opens(m, i)
    requires forall k :: i < k < e ==> InBlock(m, k) && Counts(m, k)
    requires !InBlock(m, e) || !Counts(m, e)
    ensures forall k :: i <= k < e ==> InRun(m, k) && RunStart(m, k) == i
    ensures Opens(m, e)
  {
    var a := Start(m, i);
    assert InBlock(m, i + 1) && Counts(m, i + 1);
    forall k | i <= k < e ensures InRun(m, k) && Start(m, k) == a && (i < k ==> !Opens(m, k)) {
      SameStart(m, i, k);
      forall j | a <= j < k + 1 ensures Paired(m, a, j) {
        if j > i { assert Counts(m, j); }
      }
    }
    RunStartIs(m, i, e, e - 1);
    if InBlock(m, e) {
      SameStart(m, i, e);
      assert ThroughRuns(m, a, e) by { assert InRun(m, e - 1); }
    } else if Steps(m, e) {
      OpensBlock(m, e);
    } else {
      StartsAnew(m, e);
    }
  }

  lemma {:induction false} RunStartIs(m: seq<Entry>, i: nat, e: nat, k: nat)
    requires i <= k < e <= |m| && Opens(m, i)
    requires forall j :: i < j < e ==> Counts(m, j)
    requires forall j :: i <= j < e ==> Start(m, j) == Start(m, i)
    ensures forall j :: i <= j <= k ==> RunStart(m, j) == i
  {
    if k > i { RunStartIs(m, i, e, k - 1); }
  }

  /** One pass of the encoder at an entry where something begins: what it cuts, and the roles of what it takes. */
  lemma PassRoles(m: seq<Entry>, i: nat)
    requires i < |m| && Opens(m, i)
    ensures var (gs, j) := (Cut(m, i), CutEnd(m, i));
      && Opens(m, j)
      && (if gs[0].Single? then (forall k :: i <= k < j ==> Lone(m, k))
          else if gs[0].List? then (forall k :: i <= k < j ==> Listed(m, k))
          else (forall k :: i <= k < j ==> InRun(m, k) && RunStart(m, k) == i))
  {
    var j := CutEnd(m, i);
    if i + 1 == |m| || m[i + 1].code != m[i].code + 1 {
      StartsAnew(m, i + 1);
    } else if m[i + 1].code % 256 == 0 {
      AfterPair(m, i);
    } else {
      BlockEnds(m, i, j);
      if m[i].uni + 1 != m[i + 1].uni { ListRoles(m, i, j); } else { RunRoles(m, i, j); }
    }
  }

  lemma PassIsLone(m: seq<Entry>, i: nat)
    requires i < |m| && Opens(m, i)
    ensures forall k :: i <= k < CutEnd(m, i) ==> Lone(m, k) == Cut(m, i)[0].Single?
  {
    hide *;
    PassRoles(m, i);
    forall k | i <= k < CutEnd(m, i) ensures Lone(m, k) == Cut(m, i)[0].Single? { RolesApart(m, k); }
  }

  lemma RolesApart(m: seq<Entry>, k: nat)
    ensures InRun(m, k) || Listed(m, k) ==> !Lone(m, k)
  {
    if InRun(m, k) { assert Paired(m, Start(m, k), k); }
  }

  /** A range ends where the codes stop following each other in the block, a run also where the unicodes do. */
  lemma BlockEnds(m: seq<Entry>, i: nat, j: nat)
    requires i + 1 < |m| && InBlock(m, i + 1) && j == CutEnd(m, i)
    ensures forall k :: i < k < j ==> InBlock(m, k)
    ensures m[i].uni + 1 != m[i + 1].uni ==> !InBlock(m, j)
    ensures m[i].uni + 1 == m[i + 1].uni ==> (forall k :: i < k < j ==> Counts(m, k)) && (!InBlock(m, j) || !Counts(m, j))
  {
    var stop := BlockStop(m, i);
    var end := if m[i].uni + 1 != m[i + 1].uni then ChainEnd(m, i + 2, stop) else RunEnd(m, i + 2, stop);
    assert j == end && i + 2 <= stop;
    forall k | i <= k < j ensures m[k].code == m[i].code + (k - i) {
      if k > i + 1 { assert m[k].code == m[i + 1].code + 1 + k - (i + 2); }
    }
    forall k | i < k < j ensures InBlock(m, k) {
      assert m[k].code == m[i].code + (k - i) && m[k - 1].code == m[i].code + (k - 1 - i);
      InsideBlock(m[i].code, k - i);
    }
    if m[i].uni + 1 == m[i + 1].uni {
      forall k | i < k < j ensures Counts(m, k) {
        if k > i + 1 {
          assert m[k] == Entry(m[i + 1].code + 1 + k - (i + 2), m[i + 1].uni + 1 + k - (i + 2));
          if k > i + 2 { assert m[k - 1].uni == m[i + 1].uni + 1 + (k - 1) - (i + 2); }
        }
      }
    }
    if j == stop && InBlock(m, j) {
      assert m[j].code == m[i].code + (j - i) && j - i == 256 - m[i].code % 256;
      AtBlock(m[i].code);
      assert false;
    }
  }

  lemma InsideBlock(c: nat, d: nat)
    requires d < 256 - c % 256 && 0 < d
    ensures (c + d) % 256 != 0
  {
  }

  lemma AtBlock(c: nat)
    ensures (c + (256 - c % 256)) % 256 == 0
  {
  }

  // ---------- What survives compression ----------

  /** Alone, and no entry after it of the same code is. */
  predicate LastLone(m: seq<Entry>, k: nat)
    requires k < |m|
  {
    Lone(m, k) && forall l :: k < l < |m| && Lone(m, l) ==> m[l].code != m[k].code
  }

  predicate Survives(m: seq<Entry>, k: nat)
    requires k < |m|
  {
    Lone(m, k) ==> LastLone(m, k)
  }

  predicate LoneFrom(m: seq<Entry>, i: nat, c: nat) {
    exists k :: i <= k < |m| && Lone(m, k) && m[k].code == c
  }

  predicate LastLoneFrom(m: seq<Entry>, i: nat, e: Entry) {
    exists k :: i <= k < |m| && LastLone(m, k) && m[k] == e
  }

  predicate RangeFrom(m: seq<Entry>, i: nat, e: Entry) {
    exists k :: i <= k < |m| && !Lone(m, k) && m[k] == e
  }

  /** Among the entries from i to j, the last one of its code. */
  predicate LastWithin(m: seq<Entry>, i: nat, j: nat, e: Entry)
    requires j <= |m|
  {
    exists k :: i <= k < j && m[k] == e && forall l :: k < l < j ==> m[l].code != e.code
  }

  /** The entries from i to j, all of them lone or none, add themselves to what is told of those after them. */
  lemma PassTells(m: seq<Entry>, i: nat, j: nat, lone: bool, e: Entry)
    requires i <= j <= |m| && forall k :: i <= k < j ==> Lone(m, k) == lone
    ensures LoneFrom(m, i, e.code) <==> LoneFrom(m, j, e.code) || (lone && exists k :: i <= k < j && m[k].code == e.code)
    ensures RangeFrom(m, i, e) <==> RangeFrom(m, j, e) || (!lone && exists k :: i <= k < j && m[k] == e)
  {
    hide Lone;
  }

  lemma PassLast(m: seq<Entry>, i: nat, j: nat, lone: bool, e: Entry)
    requires i <= j <= |m| && forall k :: i <= k < j ==> Lone(m, k) == lone
    ensures LastLoneFrom(m, i, e) <==>
            LastLoneFrom(m, j, e) || (lone && LastWithin(m, i, j, e) && !LoneFrom(m, j, e.code))
  {
    hide Lone;
    if LastLoneFrom(m, i, e) && !LastLoneFrom(m, j, e) {
      var k :| i <= k < |m| && LastLone(m, k) && m[k] == e;
      assert k < j;
      assert forall l :: k < l < j ==> Lone(m, l);
    }
    if lone && LastWithin(m, i, j, e) && !LoneFrom(m, j, e.code) {
      var k :| i <= k < j && m[k] == e && forall l :: k < l < j ==> m[l].code != e.code;
      forall l | k < l < |m| && Lone(m, l) ensures m[l].code != m[k].code {
        if l >= j { assert !(j <= l < |m| && Lone(m, l) && m[l].code == e.code); }
      }
      assert LastLone(m, k);
    }
  }

  lemma CutTells(m: seq<Entry>, i: nat, e: Entry, rest: seq<Group>)
    requires i < |m|
    ensures var (gs, j) := (Cut(m, i), CutEnd(m, i));
      && (HasSingle(gs + rest, e.code) <==>
            HasSingle(rest, e.code) || (gs[0].Single? && exists k :: i <= k < j && m[k].code == e.code))
      && (IsLastSingle(gs + rest, (e.code, e.uni)) <==>
            IsLastSingle(rest, (e.code, e.uni)) || (gs[0].Single? && LastWithin(m, i, j, e) && !HasSingle(rest, e.code)))
      && (InRange(gs + rest, e) <==> InRange(rest, e) || (!gs[0].Single? && exists k :: i <= k < j && m[k] == e))
  {
    var (gs, j) := (Cut(m, i), CutEnd(m, i));
    assert (gs + rest)[1..] == gs[1..] + rest;
    if |gs| == 2 {
      assert (gs + rest)[1..][0] == gs[1] && (gs + rest)[1..][1..] == rest;
      assert j == i + 2 && m[i].code != m[i + 1].code;
      hide Cut, CutEnd;
      TwoWithin(m, i, e);
    } else {
      assert gs[1..] + rest == rest;
      CutExpands(m, i);
      assert Flat(gs) == gs[0].Expand() + [];
      if gs[0].Single? { assert j == i + 1; OneWithin(m, i, e); }
      hide Cut, CutEnd;
      assert e in m[i..j] <==> exists k :: i <= k < j && m[k] == e;
    }
  }

  lemma OneWithin(m: seq<Entry>, i: nat, e: Entry)
    requires i < |m|
    ensures LastWithin(m, i, i + 1, e) <==> m[i] == e
  {
  }

  lemma TwoWithin(m: seq<Entry>, i: nat, e: Entry)
    requires i + 1 < |m| && m[i].code != m[i + 1].code
    ensures LastWithin(m, i, i + 2, e) <==> m[i] == e || m[i + 1] == e
    ensures (exists k :: i <= k < i + 2 && m[k].code == e.code) <==> m[i].code == e.code || m[i + 1].code == e.code
  {
    if m[i] == e { assert forall l :: i < l < i + 2 ==> m[l].code != e.code; }
  }

  /** The groups of the encoder, from a pass on, hold the entries by their roles. */
  lemma {:induction false} GroupsTell(m: seq<Entry>, i: nat, e: Entry)
    requires i <= |m| && Opens(m, i)
    ensures var gs := GroupsFrom(m, i);
      && (HasSingle(gs, e.code) <==> LoneFrom(m, i, e.code))
      && (IsLastSingle(gs, (e.code, e.uni)) <==> LastLoneFrom(m, i, e))
      && (InRange(gs, e) <==> RangeFrom(m, i, e))
    decreases |m| - i
  {
    if i == |m| {
      assert GroupsFrom(m, i) == [];
    } else {
      var j := CutEnd(m, i);
      hide Lone, InRun, Opens, Cut, CutEnd, InBlock, Listed, LoneFrom, RangeFrom, LastLoneFrom, LastWithin, HasSingle,
        IsLastSingle, InRange;
      var single := Cut(m, i)[0].Single?;
      PassRoles(m, i);
      PassIsLone(m, i);
      GroupsTell(m, j, e);
      CutTells(m, i, e, GroupsFrom(m, j));
      PassTells(m, i, j, single, e);
      PassLast(m, i, j, single, e);
    }
  }

  /** The pair occurs at an entry that survives. */
  predicate Kept(m: seq<Entry>, e: Entry) {
    exists k :: 0 <= k < |m| && m[k] == e && Survives(m, k)
  }

  /** Which pairs the tables decode, told from the list: those of ranges, and of the lone entries of a code the last. */
  lemma DecodesIffKept(m: seq<Entry>, c: nat, u: nat)
    requires Sorted(m)
    ensures Decodes(Compress(m), c, u) <==> Kept(m, Entry(c, u))
  {
    StartsAnew(m, 0);
    GroupsTell(m, 0, Entry(c, u));
    DecodingExact(m, c, u);
    hide Decodes, Compress, Groups, IsLastSingle, InRange, Lone;
  }

  /** For every multimap: no pair is lost exactly when each occurs at an entry that survives. */
  lemma LosslessIff(m: seq<Entry>)
    requires Sorted(m)
    ensures (forall e :: e in m ==> Decodes(Compress(m), e.code, e.uni)) <==> forall e :: e in m ==> Kept(m, e)
  {
    hide Decodes, Compress, Kept;
    forall e | e in m ensures Decodes(Compress(m), e.code, e.uni) <==> Kept(m, e) {
      DecodesIffKept(m, e.code, e.uni);
    }
  }

  /** When every unicode occurs once, as it does for a font's character map, no pair is lost exactly when no two
      lone entries have one code. */
  lemma LosslessIffNoLoneTwice(m: seq<Entry>)
    requires Sorted(m) && DistinctUnicodes(m)
    ensures (forall e :: e in m ==> Decodes(Compress(m), e.code, e.uni)) <==> !LoneTwice(m)
  {
    hide Decodes, Compress, Lone, Survives;
    LosslessIff(m);
    if LoneTwice(m) {
      var i, k :| 0 <= i < k < |m| && Lone(m, i) && Lone(m, k) && m[i].code == m[k].code;
      FirstIsLost(m, i, k);
      assert m[i] in m;
    } else {
      forall e | e in m ensures Kept(m, e) {
        var i :| 0 <= i < |m| && m[i] == e;
        OnlyOneSurvives(m, i);
      }
    }
  }

  lemma FirstIsLost(m: seq<Entry>, i: nat, k: nat)
    requires DistinctUnicodes(m) && i < k < |m| && Lone(m, i) && Lone(m, k) && m[i].code == m[k].code
    ensures !Kept(m, m[i])
  {
    hide Lone;
  }

  lemma OnlyOneSurvives(m: seq<Entry>, i: nat)
    requires i < |m| && !LoneTwice(m)
    ensures Survives(m, i)
  {
    hide Lone;
  }

  predicate LoneTwice(m: seq<Entry>) {
    exists i, k :: 0 <= i < k < |m| && Lone(m, i) && Lone(m, k) && m[i].code == m[k].code
  }
}
