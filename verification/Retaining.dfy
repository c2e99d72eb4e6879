/** Where the boundaries of the machine that moves and of the one that copies differ: a
    copied slice's original, kept by its boundary, keeps what it held when it was
    copied.  What the moving machine's counts would say had it kept that too is exactly
    what the copying machine's say. */
module Retaining {
  import opened Common
  import opened Reified
  import opened Moving
  import opened Ownership

  // ---- what a moved slice left behind -------------------------------------

  /** A slice, and the activations, as they were when it was moved. */
  datatype Left = Left(seg: seq<K>, frames: seq<Slots>)

  ghost predicate KeepsLeft(a: Alive, l: Left) {
    forall i :: 0 <= i < |l.seg| ==>
      && (l.seg[i].AfterClause? ==> l.seg[i].slice in a.slices) && KNames(l.seg[i]) <= a.slices
      && (l.seg[i].Ret? && l.seg[i].frame < |l.frames| ==> KeepsSlots(a, l.frames[l.seg[i].frame]))
  }

  ghost predicate NamedLeft(r: nat, l: Left) {
    || NamedIn(r, l.seg)
    || exists i :: 0 <= i < |l.seg| && l.seg[i].Ret? && l.seg[i].frame < |l.frames| && NamedInSlots(r, l.frames[l.seg[i].frame])
  }

  /** Owned, had every moved slice kept what it held. */
  ghost predicate OwnedYet(st: State, left: map<nat, Left>, r: nat) {
    forall a :: Closed(st, a) && (forall q :: q in left && q in a.slices ==> KeepsLeft(a, left[q])) ==>
      Named(st, a, r) || exists q :: q in left && q in a.slices && NamedLeft(r, left[q])
  }

  // ---- what a step leaves -------------------------------------------------

  ghost predicate Holds(ks: seq<K>, f: int) {
    exists i :: 0 <= i < |ks| && ks[i].Ret? && ks[i].frame == f
  }

  /** An activation of slice `r` that the stack or another slice also waits in. */
  ghost predicate Parted(st: State, r: nat, f: nat)
    requires r < |st.slices|
  {
    Holds(st.slices[r].seg, f) && (Holds(st.kont, f) || exists q :: 0 <= q < |st.slices| && q != r && !st.slices[q].gone && Holds(st.slices[q].seg, f))
  }

  ghost function NextLeft(p: Program, st: State, ask: Ask, left: map<nat, Left>): map<nat, Left> {
    match Resumed(p, st)
    case Some(r) => if ask.unique then left[r := Left(st.slices[r].seg, Wrote(p, st).frames)] else left
    case None => left
  }

  ghost function PartedBy(st: State, r: nat): set<nat>
    requires r < |st.slices|
  {
    set f | 0 <= f < |st.frames| && Parted(st, r, f)
  }

  ghost function SplitToo(split: set<nat>, n: nat): set<nat> {
    split + set f | f in split :: f + n
  }

  /** The activations a move has taken from under other code that waits in them. */
  ghost function NextSplit(p: Program, st: State, ask: Ask, split: set<nat>): set<nat> {
    match Resumed(p, st)
    case Some(r) =>
      if ask.unique then split + PartedBy(st, r) else SplitToo(split, |st.frames|)
    case None => split
  }

  function SlotNames(slots: Slots, i: nat): set<nat> {
    if i < |slots| && slots[i].Some? then Names(slots[i].value) else {}
  }

  ghost predicate SameNames(a: Slots, b: Slots) {
    |a| == |b| && forall i :: 0 <= i < |a| ==> SlotNames(a, i) == SlotNames(b, i)
  }

  /** Once split, an activation neither takes up a resumption nor lets go of one. */
  ghost predicate Steady(p: Program, st: State, split: set<nat>) {
    match st.focus
    case Run(f, at) => f in split && f < |st.frames| ==> SameNames(st.frames[f], Wrote(p, st).frames[f])
    case Return(v) =>
      |st.kont| > 0 && st.kont[|st.kont| - 1].Ret? ==>
        var k := st.kont[|st.kont| - 1];
        k.frame in split && k.frame < |st.frames| ==> SameNames(st.frames[k.frame], Written(st.frames[k.frame], map[k.slot := Some(v)]))
    case _ => true
  }

  // ---- the two machines' names --------------------------------------------

  /** Activation `g` of the copying machine is run or waited in other than by the
      original of a moved slice. */
  ghost predicate Current(m: State, c: State, g: int) {
    (c.focus.Run? && c.focus.frame == g) || Waiting(m, c, g)
  }

  ghost predicate Waiting(m: State, c: State, g: int) {
    || Holds(c.kont, g)
    || exists q :: 0 <= q < |c.slices| && q < |m.slices| && !m.slices[q].gone && Holds(c.slices[q].seg, g)
  }

  ghost predicate FrameLeft(l: Left, k: K, frames: seq<Slots>, twin: K) {
    if k.Ret? then
      twin.Ret? && k.frame < |l.frames| && twin.frame < |frames| && SameNames(l.frames[k.frame], frames[twin.frame])
    else twin == k
  }

  /** The original names what the moved slice named. */
  ghost predicate LeftAlike(l: Left, frames: seq<Slots>, seg: seq<K>) {
    |l.seg| == |seg| && forall i :: 0 <= i < |seg| ==> FrameLeft(l, l.seg[i], frames, seg[i])
  }

  ghost predicate OneVersion(m: State, c: State, back: seq<nat>, split: set<nat>) {
    forall g, g' :: 0 <= g < g' < |back| && back[g] == back[g'] && Current(m, c, g) && Current(m, c, g') ==> back[g] in split
  }

  ghost predicate NamesAgree(m: State, c: State, back: seq<nat>)
    requires |back| <= |c.frames|
  {
    forall g :: 0 <= g < |back| && Current(m, c, g) ==> back[g] < |m.frames| && SameNames(m.frames[back[g]], c.frames[g])
  }

  ghost predicate LeftOf(m: State, left: map<nat, Left>) {
    forall q: nat :: q in left <==> (q < |m.slices| && m.slices[q].gone && m.slices[q].used)
  }

  ghost predicate LeftsAlike(m: State, c: State, left: map<nat, Left>) {
    forall q :: q in left && q < |c.slices| ==> LeftAlike(left[q], c.frames, c.slices[q].seg)
  }

  ghost predicate LeftSplit(m: State, c: State, back: seq<nat>, split: set<nat>, left: map<nat, Left>) {
    forall q, g :: q in left && q < |c.slices| && 0 <= g < |back| && Holds(c.slices[q].seg, g) && Current(m, c, g) ==> back[g] in split
  }

  ghost predicate Faithful(m: State, c: State, back: seq<nat>, split: set<nat>, left: map<nat, Left>) {
    && |back| == |c.frames| && |m.slices| == |c.slices|
    && NamesAgree(m, c, back) && OneVersion(m, c, back, split) && LeftOf(m, left) && LeftsAlike(m, c, left) && LeftSplit(m, c, back, split, left)
  }

  // ---- owned in the copying machine ---------------------------------------

  lemma NamesInSlots(a: Slots, b: Slots, alive: Alive, r: nat)
    requires SameNames(a, b)
    ensures KeepsSlots(alive, a) <==> KeepsSlots(alive, b)
    ensures NamedInSlots(r, a) <==> NamedInSlots(r, b)
  {
    forall i | 0 <= i < |a|
      ensures SlotNames(a, i) == SlotNames(b, i)
    {
    }
    KeepsBySlot(alive, a);
    KeepsBySlot(alive, b);
    NamedBySlot(r, a);
    NamedBySlot(r, b);
  }

  lemma KeepsBySlot(alive: Alive, a: Slots)
    ensures KeepsSlots(alive, a) <==> forall i :: 0 <= i < |a| ==> SlotNames(a, i) <= alive.slices
  {
    if forall i :: 0 <= i < |a| ==> SlotNames(a, i) <= alive.slices {
      forall i | 0 <= i < |a| && a[i].Some?
        ensures Names(a[i].value) <= alive.slices
      {
        assert SlotNames(a, i) <= alive.slices;
      }
    }
  }

  lemma NamedBySlot(r: nat, a: Slots)
    ensures NamedInSlots(r, a) <==> exists i :: 0 <= i < |a| && r in SlotNames(a, i)
  {
    if NamedInSlots(r, a) {
      var i :| 0 <= i < |a| && a[i].Some? && r in Names(a[i].value);
      assert r in SlotNames(a, i);
    }
  }

  /** What is alive in the moving machine when `a` is in the copying machine. */
  ghost function Behind(m: State, c: State, back: seq<nat>, a: Alive): Alive {
    Alive(set g | g in a.frames && g < |back| && Current(m, c, g) :: back[g], a.slices)
  }

  /** And the other way round: with the originals' activations. */
  ghost function Ahead(m: State, c: State, back: seq<nat>, left: map<nat, Left>, a: Alive): Alive {
    Alive((set g | 0 <= g < |back| && Current(m, c, g) && back[g] in a.frames)
          + (set g | 0 <= g < |back| && InOriginal(c, left, a, g)), a.slices)
  }

  ghost predicate InOriginal(c: State, left: map<nat, Left>, a: Alive, g: nat) {
    exists q :: q in left && q in a.slices && q < |c.slices| && Holds(c.slices[q].seg, g)
  }

  lemma BehindKeeps(p: Program, m: State, c: State, back: seq<nat>, a: Alive, ks: seq<K>, twins: seq<K>)
    requires Paired(Pair(m, c, back)) && Alike(p, Pair(m, c, back), ks, twins) && KeepsAll(a, twins)
    requires forall g :: Holds(twins, g) ==> Current(m, c, g)
    ensures KeepsAll(Behind(m, c, back, a), ks)
  {
    hide Current, Agree, Wants;
    var b := Behind(m, c, back, a);
    forall i | 0 <= i < |ks|
      ensures Keeps(b, ks[i])
    {
      assert Twin(p, Pair(m, c, back), ks[i], twins[i]) && Keeps(a, twins[i]);
      if ks[i].Ret? {
        assert Holds(twins, twins[i].frame);
        assert back[twins[i].frame] in b.frames;
      }
    }
  }

  lemma AheadKeeps(p: Program, m: State, c: State, back: seq<nat>, left: map<nat, Left>, a: Alive, ks: seq<K>, twins: seq<K>)
    requires Paired(Pair(m, c, back)) && Alike(p, Pair(m, c, back), ks, twins) && KeepsAll(a, ks)
    requires forall g :: Holds(twins, g) ==> Current(m, c, g)
    ensures KeepsAll(Ahead(m, c, back, left, a), twins)
  {
    hide Current, Agree, Wants, InOriginal;
    var b := Ahead(m, c, back, left, a);
    forall i | 0 <= i < |ks|
      ensures Keeps(b, twins[i])
    {
      assert Twin(p, Pair(m, c, back), ks[i], twins[i]) && Keeps(a, ks[i]);
      if ks[i].Ret? {
        assert Holds(twins, twins[i].frame);
        assert twins[i].frame in b.frames;
      }
    }
  }

  /** Twins name the same. */
  lemma TwinsName(p: Program, w: Pairing, ks: seq<K>, twins: seq<K>, r: nat)
    requires Paired(w) && Alike(p, w, ks, twins)
    ensures NamedIn(r, ks) <==> NamedIn(r, twins)
  {
    forall i | 0 <= i < |ks|
      ensures KNames(ks[i]) == KNames(twins[i])
    {
      assert Twin(p, w, ks[i], twins[i]);
    }
  }

  lemma LeftBehind(l: Left, frames: seq<Slots>, seg: seq<K>, a: Alive, b: Alive, r: nat)
    requires LeftAlike(l, frames, seg) && KeepsAll(a, seg) && b.slices == a.slices
    requires forall f :: f in a.frames && f < |frames| ==> KeepsSlots(a, frames[f])
    ensures KeepsLeft(b, l)
    ensures NamedLeft(r, l) ==> NamedIn(r, seg) || exists f :: f in a.frames && f < |frames| && NamedInSlots(r, frames[f])
  {
    forall i | 0 <= i < |seg|
      ensures FrameLeft(l, l.seg[i], frames, seg[i]) && Keeps(a, seg[i])
    {
    }
    hide SameNames, KeepsSlots, NamedInSlots, KNames;
    forall i | 0 <= i < |seg| && seg[i].Ret?
      ensures KeepsSlots(b, l.frames[l.seg[i].frame])
      ensures NamedInSlots(r, l.frames[l.seg[i].frame]) ==> NamedInSlots(r, frames[seg[i].frame])
    {
      SlotsKept(a, b, l.frames[l.seg[i].frame]);
      NamesInSlots(l.frames[l.seg[i].frame], frames[seg[i].frame], a, r);
    }
  }

  lemma SlotsKept(a: Alive, b: Alive, slots: Slots)
    requires b.slices == a.slices
    ensures KeepsSlots(a, slots) <==> KeepsSlots(b, slots)
  {
  }

  lemma LeftAhead(l: Left, frames: seq<Slots>, seg: seq<K>, a: Alive, b: Alive, r: nat)
    requires LeftAlike(l, frames, seg) && KeepsLeft(a, l) && b.slices == a.slices
    requires forall g :: Holds(seg, g) ==> g in b.frames
    ensures KeepsAll(b, seg) && (NamedIn(r, seg) ==> NamedLeft(r, l))
    ensures forall g :: Holds(seg, g) ==> g < |frames| && KeepsSlots(b, frames[g]) && (NamedInSlots(r, frames[g]) ==> NamedLeft(r, l))
  {
    forall i | 0 <= i < |seg|
      ensures FrameLeft(l, l.seg[i], frames, seg[i])
    {
    }
    hide SameNames, KeepsSlots, NamedInSlots, KNames;
    forall i | 0 <= i < |seg| && seg[i].Ret?
      ensures Holds(seg, seg[i].frame) && KeepsSlots(b, frames[seg[i].frame])
      ensures NamedInSlots(r, frames[seg[i].frame]) ==> NamedLeft(r, l)
    {
      assert seg[i].Ret? && seg[i].frame == seg[i].frame;
      NamesInSlots(l.frames[l.seg[i].frame], frames[seg[i].frame], a, r);
      SlotsKept(a, b, frames[seg[i].frame]);
    }
  }

  /** Had the moved slices kept what they held: then the copying machine's counts. */
  lemma YetOwned(p: Program, m: State, c: State, back: seq<nat>, split: set<nat>, left: map<nat, Left>, r: nat)
    requires Sim(p, m, c, back) && Faithful(m, c, back, split, left) && OwnedYet(m, left, r)
    ensures Owned(c, r)
  {
    forall a | Closed(c, a)
      ensures Named(c, a, r)
    {
      var b := Behind(m, c, back, a);
      BehindCloses(p, m, c, back, split, left, a, r);
      assert Named(m, b, r) || exists q :: q in left && q in b.slices && NamedLeft(r, left[q]);
      BehindNames(p, m, c, back, split, left, a, r);
    }
  }

  lemma BehindCloses(p: Program, m: State, c: State, back: seq<nat>, split: set<nat>, left: map<nat, Left>, a: Alive, r: nat)
    requires Sim(p, m, c, back) && Faithful(m, c, back, split, left) && Closed(c, a)
    ensures var b := Behind(m, c, back, a); Closed(m, b) && forall q :: q in left && q in b.slices ==> KeepsLeft(b, left[q])
  {
    hide Alike, Agree, KeepsAll, KeepsSlots, OneVersion, LeftSplit, LeftAlike, SameNames, Names, Holds;
    var w, b := Pair(m, c, back), Behind(m, c, back, a);
    BehindKeeps(p, m, c, back, a, m.kont, c.kont);
    forall f | f in b.frames && f < |m.frames|
      ensures KeepsSlots(b, m.frames[f])
    {
      var g :| g in a.frames && g < |back| && Current(m, c, g) && back[g] == f;
      NamesInSlots(m.frames[f], c.frames[g], a, 0);
      SlotsKept(a, b, m.frames[f]);
    }
    forall q | q in b.slices && q < |m.slices|
      ensures KeepsAll(b, m.slices[q].seg)
    {
      assert SliceAlike(p, w, m.slices[q], c.slices[q]);
      if m.slices[q].gone {
        KeepsNone(b);
      } else {
        BehindKeeps(p, m, c, back, a, m.slices[q].seg, c.slices[q].seg);
      }
    }
    forall q | q in left && q in b.slices
      ensures KeepsLeft(b, left[q])
    {
      LeftBehind(left[q], c.frames, c.slices[q].seg, a, b, r);
    }
  }

  lemma KeepsNone(b: Alive)
    ensures KeepsAll(b, [])
  {
  }

  lemma BehindNames(p: Program, m: State, c: State, back: seq<nat>, split: set<nat>, left: map<nat, Left>, a: Alive, r: nat)
    requires Sim(p, m, c, back) && Faithful(m, c, back, split, left) && Closed(c, a)
    requires var b := Behind(m, c, back, a); Named(m, b, r) || exists q :: q in left && q in b.slices && NamedLeft(r, left[q])
    ensures Named(c, a, r)
  {
    hide Alike, Agree, KeepsAll, KeepsSlots, OneVersion, LeftSplit, LeftAlike, SameNames, Names, NamedIn, NamedInSlots, NamedLeft;
    var w, b := Pair(m, c, back), Behind(m, c, back, a);
    TwinsName(p, w, m.kont, c.kont, r);
    if f :| f in b.frames && f < |m.frames| && NamedInSlots(r, m.frames[f]) {
      var g :| g in a.frames && g < |back| && Current(m, c, g) && back[g] == f;
      NamesInSlots(m.frames[f], c.frames[g], a, r);
    } else if q :| q in b.slices && q < |m.slices| && NamedIn(r, m.slices[q].seg) {
      assert SliceAlike(p, w, m.slices[q], c.slices[q]);
      if m.slices[q].gone {
        NamedNowhere(r);
      } else {
        TwinsName(p, w, m.slices[q].seg, c.slices[q].seg, r);
      }
    } else if q :| q in left && q in b.slices && NamedLeft(r, left[q]) {
      LeftBehind(left[q], c.frames, c.slices[q].seg, a, b, r);
    }
  }

  lemma NamedNowhere(r: nat)
    ensures !NamedIn(r, [])
  {
  }

  /** The copying machine's counts: what they would be had the moved slices kept what
      they held. */
  lemma OwnedSo(p: Program, m: State, c: State, back: seq<nat>, split: set<nat>, left: map<nat, Left>, r: nat)
    requires Sim(p, m, c, back) && Faithful(m, c, back, split, left) && Owned(c, r)
    ensures OwnedYet(m, left, r)
  {
    forall a | Closed(m, a) && (forall q :: q in left && q in a.slices ==> KeepsLeft(a, left[q]))
      ensures Named(m, a, r) || exists q :: q in left && q in a.slices && NamedLeft(r, left[q])
    {
      AheadCloses(p, m, c, back, split, left, a, r);
      assert Named(c, Ahead(m, c, back, left, a), r);
      AheadNames(p, m, c, back, split, left, a, r);
    }
  }

  lemma AheadCloses(p: Program, m: State, c: State, back: seq<nat>, split: set<nat>, left: map<nat, Left>, a: Alive, r: nat)
    requires Sim(p, m, c, back) && Faithful(m, c, back, split, left) && Closed(m, a)
    requires forall q :: q in left && q in a.slices ==> KeepsLeft(a, left[q])
    ensures Closed(c, Ahead(m, c, back, left, a))
  {
    hide Alike, Agree, KeepsAll, KeepsSlots, OneVersion, LeftSplit, LeftAlike, KeepsLeft, SameNames, Names, Holds;
    var w, b := Pair(m, c, back), Ahead(m, c, back, left, a);
    AheadKeeps(p, m, c, back, left, a, m.kont, c.kont);
    forall g | g in b.frames && g < |c.frames|
      ensures KeepsSlots(b, c.frames[g])
    {
      if Current(m, c, g) && back[g] in a.frames {
        NamesInSlots(m.frames[back[g]], c.frames[g], a, 0);
        SlotsKept(a, b, c.frames[g]);
      } else {
        var q :| q in left && q in a.slices && q < |c.slices| && Holds(c.slices[q].seg, g);
        OriginalHolds(c, left, a, back, m, q);
        LeftAhead(left[q], c.frames, c.slices[q].seg, a, b, r);
      }
    }
    forall q | q in b.slices && q < |c.slices|
      ensures KeepsAll(b, c.slices[q].seg)
    {
      assert SliceAlike(p, w, m.slices[q], c.slices[q]);
      if !m.slices[q].gone {
        AheadKeeps(p, m, c, back, left, a, m.slices[q].seg, c.slices[q].seg);
      } else if q in left {
        OriginalHolds(c, left, a, back, m, q);
        LeftAhead(left[q], c.frames, c.slices[q].seg, a, b, r);
      } else {
        KeepsNone(b);
      }
    }
  }

  lemma OriginalHolds(c: State, left: map<nat, Left>, a: Alive, back: seq<nat>, m: State, q: nat)
    requires q in left && q in a.slices && q < |c.slices| && |back| == |c.frames| && LeftAlike(left[q], c.frames, c.slices[q].seg)
    ensures forall g :: Holds(c.slices[q].seg, g) ==> g in Ahead(m, c, back, left, a).frames
  {
    hide Current;
    forall g | Holds(c.slices[q].seg, g)
      ensures g in Ahead(m, c, back, left, a).frames
    {
      var i :| 0 <= i < |c.slices[q].seg| && c.slices[q].seg[i].Ret? && c.slices[q].seg[i].frame == g;
      assert FrameLeft(left[q], left[q].seg[i], c.frames, c.slices[q].seg[i]);
      assert InOriginal(c, left, a, g);
    }
  }

  lemma AheadNames(p: Program, m: State, c: State, back: seq<nat>, split: set<nat>, left: map<nat, Left>, a: Alive, r: nat)
    requires Sim(p, m, c, back) && Faithful(m, c, back, split, left) && Closed(m, a)
    requires forall q :: q in left && q in a.slices ==> KeepsLeft(a, left[q])
    requires Named(c, Ahead(m, c, back, left, a), r)
    ensures Named(m, a, r) || exists q :: q in left && q in a.slices && NamedLeft(r, left[q])
  {
    hide Alike, Agree, KeepsAll, KeepsSlots, OneVersion, LeftSplit, LeftAlike, KeepsLeft, SameNames, Names, Holds, NamedIn, NamedInSlots, NamedLeft;
    var w, b := Pair(m, c, back), Ahead(m, c, back, left, a);
    TwinsName(p, w, m.kont, c.kont, r);
    if g :| g in b.frames && g < |c.frames| && NamedInSlots(r, c.frames[g]) {
      if Current(m, c, g) && back[g] in a.frames {
        NamesInSlots(m.frames[back[g]], c.frames[g], a, r);
      } else {
        var q :| q in left && q in a.slices && q < |c.slices| && Holds(c.slices[q].seg, g);
        OriginalHolds(c, left, a, back, m, q);
        LeftAhead(left[q], c.frames, c.slices[q].seg, a, b, r);
      }
    } else if q :| q in b.slices && q < |c.slices| && NamedIn(r, c.slices[q].seg) {
      assert SliceAlike(p, w, m.slices[q], c.slices[q]);
      if !m.slices[q].gone {
        TwinsName(p, w, m.slices[q].seg, c.slices[q].seg, r);
      } else if q in left {
        OriginalHolds(c, left, a, back, m, q);
        LeftAhead(left[q], c.frames, c.slices[q].seg, a, b, r);
      } else {
        NamedNowhere(r);
      }
    }
  }

  /** A moving machine's owner is a copying machine's. */
  lemma OwnedStays(m: State, left: map<nat, Left>, r: nat)
    requires Owned(m, r)
    ensures OwnedYet(m, left, r)
  {
    hide Named, Closed;
  }

  /** At a boundary the copying machine's counts say what the moving machine's say, but
      for a slice that only what a moved slice held still names. */
  lemma OwnedAlike(p: Program, m: State, c: State, back: seq<nat>, split: set<nat>, left: map<nat, Left>, r: nat)
    requires Sim(p, m, c, back) && Faithful(m, c, back, split, left)
    ensures Owned(c, r) <==> OwnedYet(m, left, r)
    ensures Owned(m, r) ==> Owned(c, r)
    ensures Owned(m, r) == Owned(c, r) <==> (OwnedYet(m, left, r) ==> Owned(m, r))
  {
    hide *;
    if OwnedYet(m, left, r) {
      YetOwned(p, m, c, back, split, left, r);
    }
    if Owned(c, r) {
      OwnedSo(p, m, c, back, split, left, r);
    }
    if Owned(m, r) {
      OwnedStays(m, left, r);
    }
  }

  // ---- names kept by what a step does -------------------------------------

  /** Nothing becomes current, and nothing is written. */
  lemma Carried(m: State, c: State, m': State, c': State, back: seq<nat>, split: set<nat>, left: map<nat, Left>)
    requires Faithful(m, c, back, split, left) && m'.frames == m.frames && c'.frames == c.frames
    requires |m'.slices| == |c'.slices| >= |m.slices| && LeftOf(m', left)
    requires forall g :: Current(m', c', g) ==> Current(m, c, g)
    requires forall q :: 0 <= q < |c.slices| ==> c'.slices[q].seg == c.slices[q].seg
    ensures Faithful(m', c', back, split, left)
  {
    hide Current, SameNames, LeftAlike, Holds;
  }

  lemma HeldIn(a: seq<K>, b: seq<K>, g: int)
    ensures Holds(a + b, g) <==> Holds(a, g) || Holds(b, g)
  {
    if i :| 0 <= i < |a| && a[i].Ret? && a[i].frame == g {
      assert (a + b)[i] == a[i];
    } else if i :| 0 <= i < |b| && b[i].Ret? && b[i].frame == g {
      assert (a + b)[|a| + i] == b[i];
    }
  }

  lemma HeldMoved(ks: seq<K>, n: nat, g: int)
    ensures Holds(MovedAll(ks, n), g) <==> Holds(ks, g - n)
  {
    if i :| 0 <= i < |ks| && ks[i].Ret? && ks[i].frame == g - n {
      assert MovedAll(ks, n)[i] == Moved(ks[i], n);
    }
  }

  /** A twin is held where its activation is. */
  lemma HeldBehind(p: Program, w: Pairing, ks: seq<K>, twins: seq<K>, g: int)
    requires Paired(w) && Alike(p, w, ks, twins) && Holds(twins, g)
    ensures 0 <= g < |w.back| && Holds(ks, w.back[g])
  {
    var i :| 0 <= i < |twins| && twins[i].Ret? && twins[i].frame == g;
    assert Twin(p, w, ks[i], twins[i]);
  }

  lemma WrittenNames(a: Slots, b: Slots, updates: map<nat, Option<V>>)
    requires SameNames(a, b)
    ensures SameNames(Written(a, updates), Written(b, updates))
  {
    forall i | 0 <= i < |a|
      ensures SlotNames(Written(a, updates), i) == SlotNames(Written(b, updates), i)
    {
      assert SlotNames(a, i) == SlotNames(b, i);
    }
  }

  lemma NamesThrough(a: Slots, b: Slots, c: Slots)
    requires SameNames(a, b) && SameNames(b, c)
    ensures SameNames(a, c) && SameNames(b, a)
  {
    forall i | 0 <= i < |a|
      ensures SlotNames(a, i) == SlotNames(c, i) && SlotNames(b, i) == SlotNames(a, i)
    {
      assert SlotNames(a, i) == SlotNames(b, i) && SlotNames(b, i) == SlotNames(c, i);
    }
  }

  /** The states after the same slots are written in an activation and its twin. */
  function WriteIn(st: State, f: nat, updates: map<nat, Option<V>>): State
    requires f < |st.frames|
  {
    st.(frames := st.frames[f := Written(st.frames[f], updates)])
  }

  lemma WriteFaithful(m: State, c: State, back: seq<nat>, split: set<nat>, left: map<nat, Left>, g: nat, updates: map<nat, Option<V>>)
    requires Faithful(m, c, back, split, left) && g < |back| && Current(m, c, g) && back[g] < |m.frames|
    requires back[g] in split ==> SameNames(m.frames[back[g]], Written(m.frames[back[g]], updates))
    ensures Faithful(WriteIn(m, back[g], updates), WriteIn(c, g, updates), back, split, left)
  {
    hide SameNames, Holds, LeftAlike;
    var f, m', c' := back[g], WriteIn(m, back[g], updates), WriteIn(c, g, updates);
    assert forall h :: Current(m', c', h) ==> Current(m, c, h);
    hide Current;
    WrittenNames(m.frames[f], c.frames[g], updates);
    if f in split {
      NamesThrough(m.frames[f], Written(m.frames[f], updates), Written(c.frames[g], updates));
      NamesThrough(m.frames[f], c.frames[g], c.frames[g]);
      NamesThrough(c.frames[g], m.frames[f], Written(c.frames[g], updates));
    }
    forall h | 0 <= h < |back| && Current(m', c', h)
      ensures back[h] < |m'.frames| && SameNames(m'.frames[back[h]], c'.frames[h])
    {
      if h != g && back[h] == f {
        assert f in split by {
          assert OneVersion(m, c, back, split);
          assert h < g || g < h;
        }
        NamesThrough(m.frames[f], Written(m.frames[f], updates), Written(m.frames[f], updates));
        NamesThrough(Written(m.frames[f], updates), m.frames[f], c.frames[h]);
      }
    }
    forall q | q in left && q < |c'.slices|
      ensures LeftAlike(left[q], c'.frames, c'.slices[q].seg)
    {
      if Holds(c.slices[q].seg, g) {
        assert f in split;
        LeftWritten(left[q], c.frames, c.slices[q].seg, g, c'.frames[g]);
      } else {
        LeftUnwritten(left[q], c.frames, c.slices[q].seg, g, c'.frames[g]);
      }
    }
  }

  lemma LeftWritten(l: Left, frames: seq<Slots>, seg: seq<K>, g: nat, slots: Slots)
    requires LeftAlike(l, frames, seg) && g < |frames| && SameNames(frames[g], slots)
    ensures LeftAlike(l, frames[g := slots], seg)
  {
    hide SameNames;
    forall i | 0 <= i < |seg|
      ensures FrameLeft(l, l.seg[i], frames[g := slots], seg[i])
    {
      assert FrameLeft(l, l.seg[i], frames, seg[i]);
      if seg[i].Ret? && seg[i].frame == g {
        NamesThrough(l.frames[l.seg[i].frame], frames[g], slots);
      }
    }
  }

  lemma LeftUnwritten(l: Left, frames: seq<Slots>, seg: seq<K>, g: nat, slots: Slots)
    requires LeftAlike(l, frames, seg) && g < |frames| && !Holds(seg, g)
    ensures LeftAlike(l, frames[g := slots], seg)
  {
    hide SameNames;
    forall i | 0 <= i < |seg|
      ensures FrameLeft(l, l.seg[i], frames[g := slots], seg[i])
    {
      assert FrameLeft(l, l.seg[i], frames, seg[i]);
    }
  }

  lemma LeftGrows(l: Left, frames: seq<Slots>, more: seq<Slots>, seg: seq<K>)
    requires LeftAlike(l, frames, seg)
    ensures LeftAlike(l, frames + more, seg)
    ensures forall g :: Holds(seg, g) ==> 0 <= g < |frames|
  {
    hide SameNames;
    forall i | 0 <= i < |seg|
      ensures FrameLeft(l, l.seg[i], frames + more, seg[i]) && (seg[i].Ret? ==> seg[i].frame < |frames|)
    {
      assert FrameLeft(l, l.seg[i], frames, seg[i]);
    }
  }

  lemma SameItself(a: Slots)
    ensures SameNames(a, a)
  {
  }

  lemma EnterFaithful(p: Program, m: State, c: State, back: seq<nat>, split: set<nat>, left: map<nat, Left>, f: V, args: seq<V>)
    requires Faithful(m, c, back, split, left) && p.entry(f, args).Some?
    requires forall g :: 0 <= g < |back| ==> back[g] < |m.frames|
    ensures Faithful(Enter(p, m, f, args), Enter(p, c, f, args), back + [|m.frames|], split, left)
  {
    hide SameNames, Holds, LeftAlike;
    var m', c', back', n := Enter(p, m, f, args), Enter(p, c, f, args), back + [|m.frames|], |back|;
    assert forall h :: Current(m', c', h) && h != n ==> Current(m, c, h);
    hide Current;
    SameItself(c'.frames[n]);
    assert NamesAgree(m', c', back');
    assert OneVersion(m', c', back', split);
    forall q | q in left && q < |c'.slices|
      ensures LeftAlike(left[q], c'.frames, c'.slices[q].seg) && forall g :: Holds(c.slices[q].seg, g) ==> 0 <= g < |c.frames|
    {
      assert LeftAlike(left[q], c.frames, c.slices[q].seg);
      LeftGrows(left[q], c.frames, [c'.frames[n]], c.slices[q].seg);
    }
    assert LeftSplit(m', c', back', split, left);
  }

  /** Held by the copying machine's stack or by another slice than `r`. */
  ghost predicate Elsewhere(m: State, c: State, r: nat, g: int) {
    Holds(c.kont, g) || exists q :: 0 <= q < |c.slices| && q < |m.slices| && q != r && !m.slices[q].gone && Holds(c.slices[q].seg, g)
  }

  /** What the copying machine waits in after a resume: what it waited in, and the copies
      of the slice's activations. */
  lemma WaitingCopied(p: Program, m: State, c: State, back: seq<nat>, m': State, c': State, r: nat, g: int)
    requires Matched(p, m, c, back) && |back| == |c.frames| && r < |m.slices| && !m.slices[r].gone && |c'.slices| == |m'.slices| == |m.slices|
    requires c'.kont == c.kont + MovedAll(c.slices[r].seg, |c.frames|) && c'.focus.Return?
    requires forall q :: 0 <= q < |c.slices| ==> c'.slices[q].seg == c.slices[q].seg && (m.slices[q].gone ==> m'.slices[q].gone)
    requires Current(m', c', g)
    ensures (0 <= g < |back| && Waiting(m, c, g)) || (|back| <= g < 2 * |back| && Holds(c.slices[r].seg, g - |back|))
    ensures m'.slices[r].gone ==> (0 <= g < |back| && Elsewhere(m, c, r, g)) || (|back| <= g < 2 * |back| && Holds(c.slices[r].seg, g - |back|))
  {
    hide Holds, Alike, Agree;
    HeldIn(c.kont, MovedAll(c.slices[r].seg, |c.frames|), g);
    HeldMoved(c.slices[r].seg, |c.frames|, g);
    var w := Pair(m, c, back);
    if Holds(c.slices[r].seg, g - |back|) {
      assert SliceAlike(p, w, m.slices[r], c.slices[r]);
      HeldBehind(p, w, m.slices[r].seg, c.slices[r].seg, g - |back|);
    }
    if Waiting(m, c, g) {
      WaitingSmall(p, m, c, back, g);
    }
  }

  lemma WaitingSmall(p: Program, m: State, c: State, back: seq<nat>, g: int)
    requires Matched(p, m, c, back) && Waiting(m, c, g)
    ensures 0 <= g < |back|
  {
    hide Holds, Alike, Agree;
    var w := Pair(m, c, back);
    if Holds(c.kont, g) {
      HeldBehind(p, w, m.kont, c.kont, g);
    } else {
      var q :| 0 <= q < |c.slices| && q < |m.slices| && !m.slices[q].gone && Holds(c.slices[q].seg, g);
      assert SliceAlike(p, w, m.slices[q], c.slices[q]);
      HeldBehind(p, w, m.slices[q].seg, c.slices[q].seg, g);
    }
  }

  lemma ElsewhereParts(p: Program, m: State, c: State, back: seq<nat>, r: nat, a: int, g: int)
    requires Matched(p, m, c, back) && r < |m.slices| && !m.slices[r].gone
    requires Elsewhere(m, c, r, a) && Holds(c.slices[r].seg, g) && 0 <= a < |back| && 0 <= g < |back| && back[a] == back[g]
    ensures Parted(m, r, back[g]) && back[g] < |m.frames|
  {
    hide Holds, Alike, Agree;
    var w := Pair(m, c, back);
    assert SliceAlike(p, w, m.slices[r], c.slices[r]);
    HeldBehind(p, w, m.slices[r].seg, c.slices[r].seg, g);
    if Holds(c.kont, a) {
      HeldBehind(p, w, m.kont, c.kont, a);
    } else {
      var q :| 0 <= q < |c.slices| && q < |m.slices| && q != r && !m.slices[q].gone && Holds(c.slices[q].seg, a);
      assert SliceAlike(p, w, m.slices[q], c.slices[q]);
      HeldBehind(p, w, m.slices[q].seg, c.slices[q].seg, a);
    }
  }

  /** What the slice about to be moved holds is what its original will. */
  lemma LeftNow(p: Program, m: State, c: State, back: seq<nat>, r: nat)
    requires Matched(p, m, c, back) && |back| == |c.frames| && NamesAgree(m, c, back) && r < |m.slices| && !m.slices[r].gone
    ensures LeftAlike(Left(m.slices[r].seg, m.frames), c.frames, c.slices[r].seg)
  {
    hide SameNames, Agree;
    var w, seg, twins := Pair(m, c, back), m.slices[r].seg, c.slices[r].seg;
    assert SliceAlike(p, w, m.slices[r], c.slices[r]);
    forall i | 0 <= i < |twins|
      ensures FrameLeft(Left(seg, m.frames), seg[i], c.frames, twins[i])
    {
      assert Twin(p, w, seg[i], twins[i]);
      if twins[i].Ret? {
        assert Holds(twins, twins[i].frame);
        assert Current(m, c, twins[i].frame);
      }
    }
  }

  lemma MoveFaithful(p: Program, m: State, c: State, back: seq<nat>, split: set<nat>, left: map<nat, Left>, r: nat, arg: V)
    requires Matched(p, m, c, back) && Faithful(m, c, back, split, left) && r < |m.slices| && !m.slices[r].gone
    ensures var m', c' := Resume(MOVES, m, r, arg, true), Resume(COPIES, c, r, arg, true);
            Faithful(m', c', back + back, split + PartedBy(m, r), left[r := Left(m.slices[r].seg, m.frames)])
  {
    var m', c', n := Resume(MOVES, m, r, arg, true), Resume(COPIES, c, r, arg, true), |c.frames|;
    var split', left' := split + PartedBy(m, r), left[r := Left(m.slices[r].seg, m.frames)];
    assert SliceAlike(p, Pair(m, c, back), m.slices[r], c.slices[r]);
    LeftNow(p, m, c, back, r);
    hide Parted, SameNames, Holds, LeftAlike, Alike, Agree, Elsewhere, Current, Waiting;
    assert LeftOf(m', left');
    assert LeftsAlike(m', c', left') by {
      forall q | q in left' && q < |c'.slices|
        ensures LeftAlike(left'[q], c'.frames, c'.slices[q].seg)
      {
        LeftGrows(left'[q], c.frames, c.frames, c.slices[q].seg);
      }
    }
    MovedNames(p, m, c, m', c', back, split, left, r);
    MovedVersions(p, m, c, m', c', back, split, left, r);
    MovedSplit(p, m, c, m', c', back, split, left, r);
  }

  /** The shape of a resume: moved (`gone`) or copied in the one, copied in the other. */
  ghost predicate Spliced(m: State, c: State, m': State, c': State, r: nat) {
    && r < |m.slices| == |c.slices| && !m.slices[r].gone && |c'.slices| == |m'.slices| == |m.slices|
    && c'.kont == c.kont + MovedAll(c.slices[r].seg, |c.frames|) && c'.focus.Return? && c'.frames == c.frames + c.frames
    && (forall q :: 0 <= q < |c.slices| ==> c'.slices[q].seg == c.slices[q].seg && (m.slices[q].gone ==> m'.slices[q].gone))
  }

  lemma MovedNames(p: Program, m: State, c: State, m': State, c': State, back: seq<nat>, split: set<nat>, left: map<nat, Left>, r: nat)
    requires Matched(p, m, c, back) && Faithful(m, c, back, split, left) && Spliced(m, c, m', c', r) && m'.frames == m.frames
    ensures NamesAgree(m', c', back + back)
  {
    hide SameNames, Holds, Alike, Agree, Elsewhere, Matched, SlicesAlike;
    forall g | 0 <= g < |back + back| && Current(m', c', g)
      ensures (back + back)[g] < |m'.frames| && SameNames(m'.frames[(back + back)[g]], c'.frames[g])
    {
      WaitingCopied(p, m, c, back, m', c', r, g);
      if g >= |back| {
        assert Waiting(m, c, g - |back|);
        assert Current(m, c, g - |back|);
      } else {
        assert Current(m, c, g);
      }
    }
  }

  lemma MovedVersions(p: Program, m: State, c: State, m': State, c': State, back: seq<nat>, split: set<nat>, left: map<nat, Left>, r: nat)
    requires Matched(p, m, c, back) && Faithful(m, c, back, split, left) && Spliced(m, c, m', c', r) && m'.slices[r].gone
    ensures OneVersion(m', c', back + back, split + PartedBy(m, r))
  {
    hide Holds, Alike, Agree, Matched, SlicesAlike, Parted, NamesAgree, LeftOf, LeftsAlike, LeftSplit;
    var n, split' := |back|, split + PartedBy(m, r);
    forall a, g | 0 <= a < g < |back + back| && (back + back)[a] == (back + back)[g] && Current(m', c', a) && Current(m', c', g)
      ensures (back + back)[a] in split'
    {
      WaitingCopied(p, m, c, back, m', c', r, a);
      WaitingCopied(p, m, c, back, m', c', r, g);
      if a < n <= g {
        ElsewhereParts(p, m, c, back, r, a, g - n);
      } else if a < n {
        assert Current(m, c, a) && Current(m, c, g);
      } else {
        assert Current(m, c, a - n) && Current(m, c, g - n);
      }
    }
  }

  lemma MovedSplit(p: Program, m: State, c: State, m': State, c': State, back: seq<nat>, split: set<nat>, left: map<nat, Left>, r: nat)
    requires Matched(p, m, c, back) && Faithful(m, c, back, split, left) && Spliced(m, c, m', c', r) && m'.slices[r].gone
    ensures LeftSplit(m', c', back + back, split + PartedBy(m, r), left[r := Left(m.slices[r].seg, m.frames)])
  {
    hide Holds, Alike, Agree, Parted, NamesAgree, LeftOf, OneVersion, LeftAlike;
    var n, split' := |back|, split + PartedBy(m, r);
    assert SliceAlike(p, Pair(m, c, back), m.slices[r], c.slices[r]);
    forall q, g | (q in left || q == r) && q < |c'.slices| && 0 <= g < |back + back| && Holds(c'.slices[q].seg, g) && Current(m', c', g)
      ensures (back + back)[g] in split'
    {
      WaitingCopied(p, m, c, back, m', c', r, g);
      if q == r {
        HeldBehind(p, Pair(m, c, back), m.slices[r].seg, c.slices[r].seg, g);
        ElsewhereParts(p, m, c, back, r, g, g);
      } else {
        LeftGrows(left[q], c.frames, [], c.slices[q].seg);
        assert Current(m, c, g);
      }
    }
  }

  lemma CopyFaithful(p: Program, m: State, c: State, back: seq<nat>, split: set<nat>, left: map<nat, Left>, r: nat, arg: V)
    requires Matched(p, m, c, back) && Faithful(m, c, back, split, left) && r < |m.slices| && !m.slices[r].gone
    ensures var m', c' := Resume(MOVES, m, r, arg, false), Resume(COPIES, c, r, arg, false);
            Faithful(m', c', back + Shifted(back, |m.frames|), SplitToo(split, |m.frames|), left)
  {
    var m', c', back', k := Resume(MOVES, m, r, arg, false), Resume(COPIES, c, r, arg, false), back + Shifted(back, |m.frames|), |m.frames|;
    assert SliceAlike(p, Pair(m, c, back), m.slices[r], c.slices[r]);
    hide SameNames, Holds, LeftAlike, Alike, Agree, Current, Waiting;
    assert LeftOf(m', left);
    assert LeftsAlike(m', c', left) by {
      forall q | q in left && q < |c'.slices|
        ensures LeftAlike(left[q], c'.frames, c'.slices[q].seg)
      {
        LeftGrows(left[q], c.frames, c.frames, c.slices[q].seg);
      }
    }
    CopiedNames(p, m, c, m', c', back, split, left, r);
    CopiedVersions(p, m, c, m', c', back, split, left, r);
  }

  lemma CopiedNames(p: Program, m: State, c: State, m': State, c': State, back: seq<nat>, split: set<nat>, left: map<nat, Left>, r: nat)
    requires Matched(p, m, c, back) && Faithful(m, c, back, split, left) && Spliced(m, c, m', c', r) && m'.frames == m.frames + m.frames
    ensures NamesAgree(m', c', back + Shifted(back, |m.frames|))
  {
    hide SameNames, Holds, Alike, Agree, Matched, SlicesAlike;
    var back' := back + Shifted(back, |m.frames|);
    forall g | 0 <= g < |back'| && Current(m', c', g)
      ensures back'[g] < |m'.frames| && SameNames(m'.frames[back'[g]], c'.frames[g])
    {
      WaitingCopied(p, m, c, back, m', c', r, g);
      if g >= |back| {
        assert Waiting(m, c, g - |back|);
        assert Current(m, c, g - |back|);
      } else {
        assert Current(m, c, g);
      }
    }
  }

  lemma CopiedVersions(p: Program, m: State, c: State, m': State, c': State, back: seq<nat>, split: set<nat>, left: map<nat, Left>, r: nat)
    requires Matched(p, m, c, back) && Faithful(m, c, back, split, left) && Spliced(m, c, m', c', r)
    ensures OneVersion(m', c', back + Shifted(back, |m.frames|), SplitToo(split, |m.frames|))
    ensures LeftSplit(m', c', back + Shifted(back, |m.frames|), SplitToo(split, |m.frames|), left)
  {
    hide Holds, Alike, Agree, SlicesAlike, NamesAgree, LeftOf, LeftAlike;
    var n, back', split' := |back|, back + Shifted(back, |m.frames|), SplitToo(split, |m.frames|);
    assert Paired(Pair(m, c, back));
    hide Matched;
    forall a, g | 0 <= a < g < |back'| && back'[a] == back'[g] && Current(m', c', a) && Current(m', c', g)
      ensures back'[a] in split'
    {
      WaitingCopied(p, m, c, back, m', c', r, a);
      WaitingCopied(p, m, c, back, m', c', r, g);
      if a >= n {
        assert Current(m, c, a - n) && Current(m, c, g - n);
      } else if g < n {
        assert Current(m, c, a) && Current(m, c, g);
      }
    }
    forall q, g | q in left && q < |c'.slices| && 0 <= g < |back'| && Holds(c'.slices[q].seg, g) && Current(m', c', g)
      ensures back'[g] in split'
    {
      WaitingCopied(p, m, c, back, m', c', r, g);
      LeftGrows(left[q], c.frames, [], c.slices[q].seg);
      assert Current(m, c, g);
    }
  }

  // ---- one step -----------------------------------------------------------

  lemma HeldNone(ks: seq<K>, g: int)
    requires forall i :: 0 <= i < |ks| ==> !ks[i].Ret?
    ensures !Holds(ks, g)
  {
  }

  /** A slice cut off keeps what the stack held. */
  lemma CutFaithful(m: State, c: State, m': State, c': State, back: seq<nat>, split: set<nat>, left: map<nat, Left>, n: nat, top: seq<K>, sm: Slice, sc: Slice)
    requires Faithful(m, c, back, split, left) && n <= |c.kont| && sc.seg in {[], c.kont[n..]} && !sm.used
    requires m'.frames == m.frames && c'.frames == c.frames && c'.focus == c.focus
    requires m'.slices == m.slices + [sm] && c'.slices == c.slices + [sc] && c'.kont == c.kont[..n] + top
    requires forall i :: 0 <= i < |top| ==> !top[i].Ret?
    ensures Faithful(m', c', back, split, left)
  {
    hide Holds, SameNames, LeftAlike;
    forall g | Current(m', c', g)
      ensures Current(m, c, g)
    {
      HeldIn(c.kont[..n], c.kont[n..], g);
      assert c.kont == c.kont[..n] + c.kont[n..];
      HeldIn(c.kont[..n], top, g);
      HeldNone(top, g);
      HeldNone([], g);
    }
    hide Current;
    Carried(m, c, m', c', back, split, left);
  }

  lemma PerformFaithful(p: Program, m: State, c: State, back: seq<nat>, split: set<nat>, left: map<nat, Left>, op: nat, arg: V)
    requires Matched(p, m, c, back) && Faithful(m, c, back, split, left)
    ensures var m', c' := Perform(p, MOVES, m, op, arg), Perform(p, COPIES, c, op, arg);
            Faithful(m', c', if |m'.frames| > |m.frames| then back + [|m.frames|] else back, split, left)
  {
    var w := Pair(m, c, back);
    PromptAlike(p, w, m.kont, c.kont, op);
    assert forall g :: 0 <= g < |back| ==> back[g] < |m.frames|;
    match PromptFor(m.kont, op)
    case None => FocusFaithful(m, c, back, split, left, Faulted, Faulted);
    case Some((n, clause)) =>
      AlikeParts(p, w, m.kont, c.kont, n);
      DefersAlike(p, w, m.kont[n..], c.kont[n..]);
      hide Faithful, PromptFor, Defers, Alike, SlicesAlike;
      var r, ds := |m.slices|, Defers(m.kont[n..]);
      var skips := clause.uses == Never;
      var top := if !skips then [AfterClause(r)] else if ds == [] then [] else [Cleanups(ds)];
      var sm := if skips then Slice([], false, true) else Slice(m.kont[n..], false, false);
      var sc := if skips then Slice([], false, true) else Slice(c.kont[n..], false, false);
      var m', c' := m.(kont := m.kont[..n] + top, slices := m.slices + [sm]), c.(kont := c.kont[..n] + top, slices := c.slices + [sc]);
      CutFaithful(m, c, m', c', back, split, left, n, top, sm, sc);
      EnterOrNot(p, m', c', back, split, left, clause.fun, if skips then [arg] else [arg, Res(r)]);
  }

  lemma FocusFaithful(m: State, c: State, back: seq<nat>, split: set<nat>, left: map<nat, Left>, f: Focus, f': Focus)
    requires Faithful(m, c, back, split, left) && (f'.Run? ==> Current(m, c, f'.frame))
    ensures Faithful(m.(focus := f), c.(focus := f'), back, split, left)
  {
    hide Holds, SameNames, LeftAlike;
    Carried(m, c, m.(focus := f), c.(focus := f'), back, split, left);
  }

  lemma EnterOrNot(p: Program, m: State, c: State, back: seq<nat>, split: set<nat>, left: map<nat, Left>, f: V, args: seq<V>)
    requires Faithful(m, c, back, split, left) && forall g :: 0 <= g < |back| ==> back[g] < |m.frames|
    ensures var m', c' := Enter(p, m, f, args), Enter(p, c, f, args);
            Faithful(m', c', if |m'.frames| > |m.frames| then back + [|m.frames|] else back, split, left)
  {
    hide Faithful;
    if p.entry(f, args).None? {
      FocusFaithful(m, c, back, split, left, Faulted, Faulted);
    } else {
      EnterFaithful(p, m, c, back, split, left, f, args);
    }
  }

  lemma BlockFaithful(p: Program, m: State, c: State, back: seq<nat>, split: set<nat>, left: map<nat, Left>, ask: Ask)
    requires LiveIsSound(p) && Sim(p, m, c, back) && Faithful(m, c, back, split, left)
    requires m.focus.Run? && Polite(p, m) && Resumable(p, m) && Steady(p, m, split)
    ensures Faithful(Step(p, MOVES, m, ask), Step(p, COPIES, c, ask), NextBack(p, m, ask, back), NextSplit(p, m, ask, split), NextLeft(p, m, ask, left))
  {
    WroteSim(p, m, c, back);
    var f, g, wm, wc := m.focus.frame, c.focus.frame, Wrote(p, m), Wrote(p, c);
    var d := p.block(m.focus.at, m.frames[f]);
    WriteFaithful(m, c, back, split, left, g, d.updates);
    assert wm == WriteIn(m, f, d.updates) && wc == WriteIn(c, g, d.updates);
    assert forall h :: 0 <= h < |back| ==> back[h] < |wm.frames|;
    hide Faithful, Steady, LiveIsSound, Sim, Polite;
    match d.act
    case Give(v) => FocusFaithful(wm, wc, back, split, left, Return(v), Return(v));
    case Crash => FocusFaithful(wm, wc, back, split, left, Faulted, Faulted);
    case Under(what, inner) => UnderFaithful(wm, wc, back, split, left, what, inner, f, g);
    case Apply(fun, a) =>
      AppliedFaithful(p, wm, wc, back, split, left, fun, a, ask);
      if Resumed(p, m).Some? {
        SameParted(m, wm, Resumed(p, m).value);
      }
  }

  /** What applying a value leaves of what is split and what is left. */
  ghost function AppliedSplit(m: State, f: V, ask: Ask, split: set<nat>): set<nat> {
    if f.Res? && f.slice < |m.slices| && !m.slices[f.slice].gone then
      if ask.unique then split + PartedBy(m, f.slice) else SplitToo(split, |m.frames|)
    else split
  }

  ghost function AppliedLeft(m: State, f: V, ask: Ask, left: map<nat, Left>): map<nat, Left> {
    if f.Res? && f.slice < |m.slices| && !m.slices[f.slice].gone && ask.unique then
      left[f.slice := Left(m.slices[f.slice].seg, m.frames)]
    else left
  }

  lemma AppliedFaithful(p: Program, m: State, c: State, back: seq<nat>, split: set<nat>, left: map<nat, Left>, f: V, a: V, ask: Ask)
    requires Matched(p, m, c, back) && Faithful(m, c, back, split, left)
    requires f.Res? && f.slice < |m.slices| ==> !(m.slices[f.slice].gone && m.slices[f.slice].used)
    ensures var m', c' := Applied(p, MOVES, m, f, a, ask), Applied(p, COPIES, c, f, a, ask);
            var back' := if f.Res? && f.slice < |m.slices| && !m.slices[f.slice].gone then
                           if ask.unique then back + back else back + Shifted(back, |m.frames|)
                         else if |m'.frames| > |m.frames| then back + [|m.frames|] else back;
            Faithful(m', c', back', AppliedSplit(m, f, ask, split), AppliedLeft(m, f, ask, left))
  {
    hide Faithful;
    match f
    case Oper(op) => PerformFaithful(p, m, c, back, split, left, op, a);
    case Res(r) =>
      assert r < |m.slices| ==> SliceAlike(p, Pair(m, c, back), m.slices[r], c.slices[r]);
      if r >= |m.slices| || m.slices[r].gone {
        FocusFaithful(m, c, back, split, left, Faulted, Faulted);
      } else if ask.unique {
        MoveFaithful(p, m, c, back, split, left, r, a);
      } else {
        CopyFaithful(p, m, c, back, split, left, r, a);
      }
    case _ =>
      if p.entry(f, [a]).Some? {
        EnterFaithful(p, m, c, back, split, left, f, [a]);
      } else {
        PrimFaithful(p, m, c, back, split, left, f, a, ask);
      }
  }

  lemma SameParted(m: State, wm: State, r: nat)
    requires r < |m.slices| && wm.slices == m.slices && wm.kont == m.kont && |wm.frames| == |m.frames|
    ensures PartedBy(wm, r) == PartedBy(m, r)
  {
    hide Holds;
  }

  lemma PrimFaithful(p: Program, m: State, c: State, back: seq<nat>, split: set<nat>, left: map<nat, Left>, f: V, a: V, ask: Ask)
    requires Faithful(m, c, back, split, left) && m.trace == c.trace && !f.Oper? && !f.Res? && p.entry(f, [a]).None?
    ensures Faithful(Applied(p, MOVES, m, f, a, ask), Applied(p, COPIES, c, f, a, ask), back, split, left)
    ensures Applied(p, MOVES, m, f, a, ask).frames == m.frames
  {
    hide Holds, SameNames, LeftAlike;
    Carried(m, c, Applied(p, MOVES, m, f, a, ask), Applied(p, COPIES, c, f, a, ask), back, split, left);
  }

  lemma UnderFaithful(m: State, c: State, back: seq<nat>, split: set<nat>, left: map<nat, Left>, what: Pending, inner: nat, f: nat, g: nat)
    requires Faithful(m, c, back, split, left) && Current(m, c, g)
    ensures var m' := m.(kont := m.kont + [Suspended(what, f)], focus := Run(f, inner));
            var c' := c.(kont := c.kont + [Suspended(what, g)], focus := Run(g, inner));
            Faithful(m', c', back, split, left)
  {
    var m' := m.(kont := m.kont + [Suspended(what, f)], focus := Run(f, inner));
    var c' := c.(kont := c.kont + [Suspended(what, g)], focus := Run(g, inner));
    hide SameNames, LeftAlike;
    forall h | Current(m', c', h)
      ensures Current(m, c, h)
    {
      HeldIn(c.kont, [Suspended(what, g)], h);
    }
    hide Holds, Current;
    Carried(m, c, m', c', back, split, left);
  }

  lemma PopFaithful(m: State, c: State, back: seq<nat>, split: set<nat>, left: map<nat, Left>, top: seq<K>, f: Focus)
    requires Faithful(m, c, back, split, left) && |m.kont| == |c.kont| > 0 && !f.Run?
    requires forall i :: 0 <= i < |top| ==> !top[i].Ret?
    ensures var n := |c.kont| - 1;
            Faithful(m.(kont := m.kont[..n] + top, focus := f), c.(kont := c.kont[..n] + top, focus := f), back, split, left)
  {
    hide SameNames, LeftAlike, Holds;
    var n := |c.kont| - 1;
    var m', c' := m.(kont := m.kont[..n] + top, focus := f), c.(kont := c.kont[..n] + top, focus := f);
    forall h | Current(m', c', h)
      ensures Current(m, c, h)
    {
      HeldIn(c.kont[..n], top, h);
      HeldNone(top, h);
      HeldIn(c.kont[..n], [c.kont[n]], h);
      assert c.kont == c.kont[..n] + [c.kont[n]];
    }
    hide Current;
    Carried(m, c, m', c', back, split, left);
  }

  lemma RetFaithful(p: Program, m: State, c: State, back: seq<nat>, split: set<nat>, left: map<nat, Left>, ask: Ask)
    requires Sim(p, m, c, back) && Faithful(m, c, back, split, left) && Steady(p, m, split)
    requires m.focus.Return? && |m.kont| > 0 && m.kont[|m.kont| - 1].Ret?
    ensures Faithful(Step(p, MOVES, m, ask), Step(p, COPIES, c, ask), back, split, left)
  {
    var n := |m.kont| - 1;
    assert Twin(p, Pair(m, c, back), m.kont[n], c.kont[n]);
    hide SameNames, LeftAlike, Alike;
    var g, updates := c.kont[n].frame, map[m.kont[n].slot := Some(m.focus.v)];
    assert Holds(c.kont, g);
    WriteFaithful(m, c, back, split, left, g, updates);
    var wm, wc := WriteIn(m, back[g], updates), WriteIn(c, g, updates);
    var m', c' := Step(p, MOVES, m, ask), Step(p, COPIES, c, ask);
    hide Faithful;
    forall h | Current(m', c', h)
      ensures Current(wm, wc, h)
    {
      HeldIn(c.kont[..n], [c.kont[n]], h);
      assert c.kont == c.kont[..n] + [c.kont[n]];
    }
    hide Current, Holds;
    assert LeftOf(m', left) by {
      assert Faithful(wm, wc, back, split, left);
      LeftIs(wm, wc, back, split, left);
    }
    Carried(wm, wc, m', c', back, split, left);
  }

  lemma LeftIs(m: State, c: State, back: seq<nat>, split: set<nat>, left: map<nat, Left>)
    requires Faithful(m, c, back, split, left)
    ensures LeftOf(m, left)
  {
  }

  lemma ReturnFaithful(p: Program, m: State, c: State, back: seq<nat>, split: set<nat>, left: map<nat, Left>, ask: Ask)
    requires Sim(p, m, c, back) && Faithful(m, c, back, split, left) && Steady(p, m, split) && m.focus.Return?
    ensures Faithful(Step(p, MOVES, m, ask), Step(p, COPIES, c, ask), NextBack(p, m, ask, back), split, left)
  {
    hide Faithful, Steady, SlicesAlike;
    var v := m.focus.v;
    if |m.kont| == 0 {
      FocusFaithful(m, c, back, split, left, Stopped(v), Stopped(v));
    } else {
      var w, n := Pair(m, c, back), |m.kont| - 1;
      var k := m.kont[n];
      assert Twin(p, w, k, c.kont[n]);
      assert forall g :: 0 <= g < |back| ==> back[g] < |m.frames|;
      hide Alike, Paired, Agree;
      assert m.kont[..n] + [] == m.kont[..n] && c.kont[..n] + [] == c.kont[..n];
      match k
      case Ret(f, slot, next) => RetFaithful(p, m, c, back, split, left, ask);
      case Prompt(_, els) =>
        PopFaithful(m, c, back, split, left, [], m.focus);
        EnterOrNot(p, m.(kont := m.kont[..n]), c.(kont := c.kont[..n]), back, split, left, els, [v]);
      case Defer(cleanup) =>
        PopFaithful(m, c, back, split, left, [ThunkRet(v)], m.focus);
        EnterOrNot(p, m.(kont := m.kont[..n] + [ThunkRet(v)]), c.(kont := c.kont[..n] + [ThunkRet(v)]), back, split, left, cleanup, []);
      case ThunkRet(saved) => PopFaithful(m, c, back, split, left, [], Return(saved));
      case AfterClause(r) => BoundaryFaithful(p, m, c, back, split, left, ask, r);
      case Cleanups(cleanups) => UnwindFaithful(m, c, back, split, left, cleanups, v);
    }
  }

  lemma UnwindFaithful(m: State, c: State, back: seq<nat>, split: set<nat>, left: map<nat, Left>, cleanups: seq<V>, v: V)
    requires Faithful(m, c, back, split, left) && |m.kont| == |c.kont| > 0
    ensures var n := |c.kont| - 1;
            Faithful(Unwind(m.(kont := m.kont[..n]), cleanups, v), Unwind(c.(kont := c.kont[..n]), cleanups, v), back, split, left)
  {
    hide Faithful;
    var n, top := |c.kont| - 1, [ThunkRet(v)] + Deferred(cleanups);
    PopFaithful(m, c, back, split, left, top, Return(Unit));
    assert m.kont[..n] + [ThunkRet(v)] + Deferred(cleanups) == m.kont[..n] + top && c.kont[..n] + [ThunkRet(v)] + Deferred(cleanups) == c.kont[..n] + top;
  }

  lemma BoundaryFaithful(p: Program, m: State, c: State, back: seq<nat>, split: set<nat>, left: map<nat, Left>, ask: Ask, r: nat)
    requires Sim(p, m, c, back) && Faithful(m, c, back, split, left) && m.focus.Return?
    requires |m.kont| > 0 && m.kont[|m.kont| - 1] == AfterClause(r)
    ensures Faithful(Step(p, MOVES, m, ask), Step(p, COPIES, c, ask), back, split, left)
    ensures Step(p, MOVES, m, ask).frames == m.frames
  {
    hide Faithful;
    var n := |m.kont| - 1;
    assert Twin(p, Pair(m, c, back), m.kont[n], c.kont[n]);
    assert m.kont[..n] + [] == m.kont[..n] && c.kont[..n] + [] == c.kont[..n];
    if r >= |m.slices| {
      FocusFaithful(m, c, back, split, left, Faulted, Faulted);
    } else {
      assert SliceAlike(p, Pair(m, c, back), m.slices[r], c.slices[r]);
      if m.slices[r].used || ask.owned {
        PopFaithful(m, c, back, split, left, [], m.focus);
      } else {
        BoundaryDefers(p, m, c, back, r);
        UnwindFaithful(m, c, back, split, left, Defers(m.slices[r].seg), m.focus.v);
      }
    }
  }

  /** Step for step, the names stay alike. */
  lemma StepFaithful(p: Program, m: State, c: State, back: seq<nat>, split: set<nat>, left: map<nat, Left>, ask: Ask)
    requires LiveIsSound(p) && Sim(p, m, c, back) && Faithful(m, c, back, split, left)
    requires Polite(p, m) && Resumable(p, m) && Steady(p, m, split)
    ensures Faithful(Step(p, MOVES, m, ask), Step(p, COPIES, c, ask), NextBack(p, m, ask, back), NextSplit(p, m, ask, split), NextLeft(p, m, ask, left))
  {
    hide Faithful, Steady, LiveIsSound, Polite, Sim;
    match m.focus
    case Run(_, _) => BlockFaithful(p, m, c, back, split, left, ask);
    case Return(_) => ReturnFaithful(p, m, c, back, split, left, ask);
    case _ => assert Step(p, COPIES, c, ask) == c by { SameFocus(p, m, c, back); }
  }

  lemma SameFocus(p: Program, m: State, c: State, back: seq<nat>)
    requires Sim(p, m, c, back) && !m.focus.Run?
    ensures c.focus == m.focus
  {
  }
}
