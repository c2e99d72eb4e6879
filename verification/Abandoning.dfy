/** Skipping the slices of clauses that cannot resume is capturing them, with every
    boundary decided by the counts of the machine that meets it: the runs are seen alike
    as long as no boundary's slice is owned only through what such slices hold, and at
    the first where one is, they part. */
module Abandoning {
  import opened Common
  import opened Reified
  import opened Moving
  import opened Ownership
  import opened Skipping

  // ---- without what dead slices hold --------------------------------------

  /** A dead slice with its cleanups alone. */
  function StrippedSlice(s: Slice): Slice {
    s.(seg := Deferred(Defers(s.seg)))
  }

  function Stripped(x: State, dead: set<nat>): State {
    x.(slices := seq(|x.slices|, r requires 0 <= r < |x.slices| => if r in dead then StrippedSlice(x.slices[r]) else x.slices[r]))
  }

  // ---- names in images ----------------------------------------------------

  /** What an image holds is what the frames' images hold. */
  lemma {:induction false} InImage(ks: seq<K>, slices: seq<Slice>, dead: set<nat>, k: K)
    ensures k in Image(ks, slices, dead) <==> exists i :: 0 <= i < |ks| && k in ImageOf(ks[i], slices, dead)
    decreases |ks|
  {
    hide ImageOf;
    if |ks| > 0 {
      var n := |ks| - 1;
      InImage(ks[..n], slices, dead, k);
      if k in Image(ks[..n], slices, dead) {
        var i :| 0 <= i < n && k in ImageOf(ks[..n][i], slices, dead);
        assert k in ImageOf(ks[i], slices, dead);
      }
      if i :| 0 <= i < |ks| && k in ImageOf(ks[i], slices, dead) {
        if i < n {
          assert k in ImageOf(ks[..n][i], slices, dead);
        }
      }
    }
  }

  /** `ks` is kept as its image is, the dead slices it bounds among what is alive with
      the cleanups they hold. */
  ghost predicate BoundsDead(ks: seq<K>, dead: set<nat>, q: nat) {
    q in dead && exists i :: 0 <= i < |ks| && ks[i] == AfterClause(q)
  }

  lemma ImageKeeps(x: State, dead: set<nat>, ks: seq<K>, a: Alive, b: Alive)
    requires KeepsAll(a, Image(ks, x.slices, dead)) && FreeKs(ks, Bad(dead, |x.slices|)) && Numbered(ks, |x.slices|)
    requires a.frames <= b.frames && (forall r :: r in a.slices && r !in dead ==> r in b.slices)
    requires forall q: nat :: BoundsDead(ks, dead, q) ==> q in b.slices
    ensures KeepsAll(b, ks)
    ensures forall q: nat :: BoundsDead(ks, dead, q) && q < |x.slices| ==> NamesAll(Defers(x.slices[q].seg)) <= a.slices
  {
    forall i | 0 <= i < |ks|
      ensures Keeps(b, ks[i])
    {
      if ks[i].AfterClause? && ks[i].slice in dead {
        assert BoundsDead(ks, dead, ks[i].slice);
      } else {
        InImage(ks, x.slices, dead, ks[i]);
        assert ks[i] in ImageOf(ks[i], x.slices, dead);
        var j :| 0 <= j < |Image(ks, x.slices, dead)| && Image(ks, x.slices, dead)[j] == ks[i];
        assert Keeps(a, Image(ks, x.slices, dead)[j]);
        assert Free(KNames(ks[i]), Bad(dead, |x.slices|));
      }
    }
    forall q: nat | BoundsDead(ks, dead, q) && q < |x.slices|
      ensures NamesAll(Defers(x.slices[q].seg)) <= a.slices
    {
      var i :| 0 <= i < |ks| && ks[i] == AfterClause(q);
      var ds := Defers(x.slices[q].seg);
      if ds != [] {
        assert Cleanups(ds) in ImageOf(ks[i], x.slices, dead);
        InImage(ks, x.slices, dead, Cleanups(ds));
        var j :| 0 <= j < |Image(ks, x.slices, dead)| && Image(ks, x.slices, dead)[j] == Cleanups(ds);
        assert Keeps(a, Image(ks, x.slices, dead)[j]);
      }
    }
  }

  lemma {:induction false} NamesAllIn(vs: seq<V>, z: nat)
    ensures z in NamesAll(vs) <==> exists i :: 0 <= i < |vs| && z in Names(vs[i])
  {
    if |vs| > 0 {
      NamesAllIn(vs[1..], z);
      if i :| 0 <= i < |vs| && z in Names(vs[i]) {
        if i > 0 {
          assert z in Names(vs[1..][i - 1]);
        }
      }
      if i :| 0 <= i < |vs[1..]| && z in Names(vs[1..][i]) {
        assert z in Names(vs[i + 1]);
      }
    }
  }

  lemma StrippedNames(ds: seq<V>, z: nat)
    ensures NamedIn(z, Deferred(ds)) <==> z in NamesAll(ds)
  {
    NamesAllIn(ds, z);
    hide NamesAll;
    if i :| 0 <= i < |ds| && z in Names(ds[i]) {
      assert KNames(Deferred(ds)[i]) == Names(ds[i]);
    }
  }

  lemma StrippedKeeps(ds: seq<V>, a: Alive)
    ensures KeepsAll(a, Deferred(ds)) <==> NamesAll(ds) <= a.slices
  {
    forall i | 0 <= i < |ds|
      ensures Keeps(a, Deferred(ds)[i]) <==> Names(ds[i]) <= a.slices
    {
    }
    if KeepsAll(a, Deferred(ds)) {
      forall z | z in NamesAll(ds)
        ensures z in a.slices
      {
        NamesAllIn(ds, z);
        var i :| 0 <= i < |ds| && z in Names(ds[i]);
        assert Keeps(a, Deferred(ds)[i]);
      }
    }
    if NamesAll(ds) <= a.slices {
      forall i | 0 <= i < |ds|
        ensures Names(ds[i]) <= a.slices
      {
        NamesOfOne(ds, i);
      }
    }
  }

  lemma NamedImage(x: State, dead: set<nat>, ks: seq<K>, z: nat)
    requires NamedIn(z, ks)
    ensures NamedIn(z, Image(ks, x.slices, dead))
  {
    var i :| 0 <= i < |ks| && z in KNames(ks[i]);
    assert ks[i] in ImageOf(ks[i], x.slices, dead);
    InImage(ks, x.slices, dead, ks[i]);
  }

  lemma CleanupsNamed(x: State, dead: set<nat>, ks: seq<K>, q: nat, z: nat)
    requires BoundsDead(ks, dead, q) && q < |x.slices| && z in NamesAll(Defers(x.slices[q].seg))
    ensures NamedIn(z, Image(ks, x.slices, dead))
  {
    var i, ds :| 0 <= i < |ks| && ks[i] == AfterClause(q) && ds == Defers(x.slices[q].seg);
    assert Cleanups(ds) in ImageOf(ks[i], x.slices, dead);
    InImage(ks, x.slices, dead, Cleanups(ds));
    assert z in KNames(Cleanups(ds));
  }

  lemma ImageNamed(x: State, dead: set<nat>, ks: seq<K>, z: nat)
    requires NamedIn(z, Image(ks, x.slices, dead))
    ensures NamedIn(z, ks) || exists q: nat :: BoundsDead(ks, dead, q) && q < |x.slices| && z in NamesAll(Defers(x.slices[q].seg))
  {
    var image := Image(ks, x.slices, dead);
    var j :| 0 <= j < |image| && z in KNames(image[j]);
    InImage(ks, x.slices, dead, image[j]);
    var i :| 0 <= i < |ks| && image[j] in ImageOf(ks[i], x.slices, dead);
    if image[j] != ks[i] {
      var q := ks[i].slice;
      assert BoundsDead(ks, dead, q);
    }
  }

  lemma KeepsImage(x: State, dead: set<nat>, ks: seq<K>, a: Alive)
    requires KeepsAll(a, ks)
    requires forall q :: q in dead && q in a.slices && q < |x.slices| ==> NamesAll(Defers(x.slices[q].seg)) <= a.slices
    ensures KeepsAll(a, Image(ks, x.slices, dead))
  {
    var image := Image(ks, x.slices, dead);
    forall j | 0 <= j < |image|
      ensures Keeps(a, image[j])
    {
      InImage(ks, x.slices, dead, image[j]);
      var i :| 0 <= i < |ks| && image[j] in ImageOf(ks[i], x.slices, dead);
      assert Keeps(a, ks[i]);
    }
  }

  // ---- owned in the skipping machine --------------------------------------

  /** The dead slices that what is alive bounds. */
  ghost predicate BoundBy(x: State, dead: set<nat>, a: Alive, q: nat) {
    || BoundsDead(x.kont, dead, q)
    || exists s :: s in a.slices && s !in dead && s < |x.slices| && BoundsDead(x.slices[s].seg, dead, q)
  }

  ghost function WithDead(x: State, dead: set<nat>, a: Alive): Alive {
    Alive(a.frames, (a.slices - dead) + set q | q in dead && BoundBy(x, dead, a, q))
  }

  lemma WithDeadCloses(x: State, dead: set<nat>, a: Alive)
    requires Dead(x, dead) && Closed(Without(x, dead), a)
    ensures Closed(Stripped(x, dead), WithDead(x, dead, a))
  {
    var b, y := WithDead(x, dead, a), Stripped(x, dead);
    hide Image, KeepsAll, KeepsSlots, NamesAll, Defers, BoundsDead, FreeKs, FreeSlots, Numbered;
    assert KeepsAll(a, Without(x, dead).kont);
    BoundIsDead(x, dead, a);
    ImageKeeps(x, dead, x.kont, a, b);
    forall f | f in b.frames && f < |y.frames|
      ensures KeepsSlots(b, y.frames[f])
    {
      assert FreeSlots(x.frames[f], Bad(dead, |x.slices|));
      SlotsWithDead(x, dead, a, b, x.frames[f]);
    }
    forall s | s in b.slices && s < |y.slices|
      ensures KeepsAll(b, y.slices[s].seg)
    {
      if s in dead {
        DeadKept(x, dead, a, s);
      } else {
        assert KeepsAll(a, Without(x, dead).slices[s].seg);
        ImageKeeps(x, dead, x.slices[s].seg, a, b);
      }
    }
  }

  lemma BoundIsDead(x: State, dead: set<nat>, a: Alive)
    ensures forall q: nat :: BoundsDead(x.kont, dead, q) ==> q in WithDead(x, dead, a).slices
    ensures forall s, q: nat :: s in a.slices && s !in dead && s < |x.slices| && BoundsDead(x.slices[s].seg, dead, q) ==>
              q in WithDead(x, dead, a).slices
  {
    forall q: nat | BoundsDead(x.kont, dead, q)
      ensures q in dead && BoundBy(x, dead, a, q)
    {
    }
    forall s, q: nat | s in a.slices && s !in dead && s < |x.slices| && BoundsDead(x.slices[s].seg, dead, q)
      ensures q in dead && BoundBy(x, dead, a, q)
    {
    }
  }

  lemma SlotsWithDead(x: State, dead: set<nat>, a: Alive, b: Alive, slots: Slots)
    requires FreeSlots(slots, Bad(dead, |x.slices|)) && KeepsSlots(a, slots) && forall r :: r in a.slices && r !in dead ==> r in b.slices
    ensures KeepsSlots(b, slots)
  {
    forall i | 0 <= i < |slots| && slots[i].Some?
      ensures Names(slots[i].value) <= b.slices
    {
      assert Free(Names(slots[i].value), Bad(dead, |x.slices|));
    }
  }

  /** A dead slice's cleanups are alive where its boundary is. */
  lemma DeadKept(x: State, dead: set<nat>, a: Alive, q: nat)
    requires Dead(x, dead) && Closed(Without(x, dead), a) && q in dead && q < |x.slices| && BoundBy(x, dead, a, q)
    ensures var b := WithDead(x, dead, a); KeepsAll(b, Deferred(Defers(x.slices[q].seg)))
  {
    var b, ds := WithDead(x, dead, a), Defers(x.slices[q].seg);
    DefersFree(x.slices[q].seg, Bad(dead, |x.slices|));
    StrippedKeeps(ds, b);
    hide Image, KeepsAll, KeepsSlots, NamesAll, Defers, BoundsDead, FreeKs, FreeSlots, Numbered;
    BoundIsDead(x, dead, a);
    if BoundsDead(x.kont, dead, q) {
      assert KeepsAll(a, Without(x, dead).kont);
      ImageKeeps(x, dead, x.kont, a, b);
    } else {
      var s :| s in a.slices && s !in dead && s < |x.slices| && BoundsDead(x.slices[s].seg, dead, q);
      assert KeepsAll(a, Without(x, dead).slices[s].seg);
      ImageKeeps(x, dead, x.slices[s].seg, a, b);
    }
  }

  lemma WithDeadNames(x: State, dead: set<nat>, a: Alive, z: nat)
    requires Dead(x, dead) && Closed(Without(x, dead), a) && Named(Stripped(x, dead), WithDead(x, dead, a), z)
    ensures Named(Without(x, dead), a, z)
  {
    var b, y, w := WithDead(x, dead, a), Stripped(x, dead), Without(x, dead);
    hide Image, KeepsAll, KeepsSlots, NamesAll, Defers, BoundsDead, FreeKs, FreeSlots, Numbered, NamedIn, NamedInSlots, Deferred;
    if NamedIn(z, x.kont) {
      NamedImage(x, dead, x.kont, z);
    } else if s :| s in b.slices && s < |y.slices| && NamedIn(z, y.slices[s].seg) {
      if s in dead {
        var ds := Defers(x.slices[s].seg);
        StrippedNames(ds, z);
        if BoundsDead(x.kont, dead, s) {
          CleanupsNamed(x, dead, x.kont, s, z);
        } else {
          var t :| t in a.slices && t !in dead && t < |x.slices| && BoundsDead(x.slices[t].seg, dead, s);
          CleanupsNamed(x, dead, x.slices[t].seg, s, z);
          assert NamedIn(z, w.slices[t].seg);
        }
      } else {
        NamedImage(x, dead, x.slices[s].seg, z);
        assert NamedIn(z, w.slices[s].seg);
      }
    }
  }

  lemma SkippedCloses(x: State, dead: set<nat>, a: Alive, z: nat)
    requires Dead(x, dead) && Closed(Stripped(x, dead), a)
    ensures Closed(Without(x, dead), a)
    ensures Named(Without(x, dead), a, z) ==> Named(Stripped(x, dead), a, z)
  {
    var y, w := Stripped(x, dead), Without(x, dead);
    hide Image, KeepsSlots, NamesAll, Defers, BoundsDead, FreeKs, FreeSlots, Numbered, NamedIn, NamedInSlots, Deferred, KeepsAll;
    forall q | q in dead && q in a.slices && q < |x.slices|
      ensures NamesAll(Defers(x.slices[q].seg)) <= a.slices
    {
      assert KeepsAll(a, y.slices[q].seg);
      StrippedKeeps(Defers(x.slices[q].seg), a);
    }
    KeepsImage(x, dead, x.kont, a);
    forall s | s in a.slices && s < |w.slices|
      ensures KeepsAll(a, w.slices[s].seg)
    {
      if s in dead {
        KeepsEmpty(a);
      } else {
        assert KeepsAll(a, y.slices[s].seg);
        KeepsImage(x, dead, x.slices[s].seg, a);
      }
    }
    if NamedIn(z, w.kont) {
      SkippedNamed(x, dead, a, x.kont, z);
    } else if s :| s in a.slices && s < |w.slices| && NamedIn(z, w.slices[s].seg) {
      if s in dead {
        NamedEmpty(z);
      } else {
        assert KeepsAll(a, y.slices[s].seg);
        SkippedNamed(x, dead, a, x.slices[s].seg, z);
        assert NamedIn(z, x.slices[s].seg) ==> NamedIn(z, y.slices[s].seg);
      }
    }
  }

  lemma KeepsEmpty(a: Alive)
    ensures KeepsAll(a, [])
  {
  }

  lemma NamedEmpty(z: nat)
    ensures !NamedIn(z, [])
  {
  }

  lemma SkippedNamed(x: State, dead: set<nat>, a: Alive, ks: seq<K>, z: nat)
    requires KeepsAll(a, ks) && NamedIn(z, Image(ks, x.slices, dead))
    ensures NamedIn(z, ks) || exists q :: q in a.slices && q < |x.slices| && NamedIn(z, Stripped(x, dead).slices[q].seg)
  {
    hide Image, NamesAll, Defers, Deferred, NamedIn;
    ImageNamed(x, dead, ks, z);
    if q: nat :| BoundsDead(ks, dead, q) && q < |x.slices| && z in NamesAll(Defers(x.slices[q].seg)) {
      var i :| 0 <= i < |ks| && ks[i] == AfterClause(q);
      assert Keeps(a, ks[i]);
      StrippedNames(Defers(x.slices[q].seg), z);
      assert NamedIn(z, Stripped(x, dead).slices[q].seg);
    }
  }

  /** The skipping machine's counts: the capturing machine's, if its dead slices held
      nothing but their cleanups. */
  lemma StrippedIsSkipped(x: State, dead: set<nat>, z: nat)
    requires Dead(x, dead)
    ensures Owned(Without(x, dead), z) <==> Owned(Stripped(x, dead), z)
  {
    hide Dead, Closed, Named, Without, Stripped;
    if Owned(Stripped(x, dead), z) {
      forall a | Closed(Without(x, dead), a)
        ensures Named(Without(x, dead), a, z)
      {
        WithDeadCloses(x, dead, a);
        WithDeadNames(x, dead, a, z);
      }
    }
    if Owned(Without(x, dead), z) {
      forall a | Closed(Stripped(x, dead), a)
        ensures Named(Stripped(x, dead), a, z)
      {
        SkippedCloses(x, dead, a, z);
      }
    }
  }

  lemma {:induction false} DefersKept(ks: seq<K>, a: Alive)
    requires KeepsAll(a, ks)
    ensures NamesAll(Defers(ks)) <= a.slices
    decreases |ks|
  {
    if |ks| > 0 {
      var n := |ks| - 1;
      DefersKept(ks[..n], a);
      assert Keeps(a, ks[n]);
      if ks[n].Defer? {
        NamesJoin(Defers(ks[..n]), ks[n].cleanup);
      }
    }
  }

  lemma {:induction false} DefersNamed(ks: seq<K>, z: nat)
    requires z in NamesAll(Defers(ks))
    ensures NamedIn(z, ks)
    decreases |ks|
  {
    if |ks| > 0 {
      var n := |ks| - 1;
      if ks[n].Defer? {
        NamesJoin(Defers(ks[..n]), ks[n].cleanup);
      }
      if z in NamesAll(Defers(ks[..n])) {
        DefersNamed(ks[..n], z);
        var i :| 0 <= i < n && z in KNames(ks[..n][i]);
        assert z in KNames(ks[i]);
      } else {
        assert z in KNames(ks[n]);
      }
    }
  }

  /** What dead slices hold besides their cleanups can only own more. */
  lemma StrippedOwns(x: State, dead: set<nat>, z: nat)
    requires Owned(Stripped(x, dead), z)
    ensures Owned(x, z)
  {
    hide Named, Closed;
    forall a | Closed(x, a)
      ensures Named(x, a, z)
    {
      StrippedAlive(x, dead, a, z);
    }
  }

  lemma StrippedAlive(x: State, dead: set<nat>, a: Alive, z: nat)
    requires Closed(x, a)
    ensures Closed(Stripped(x, dead), a) && (Named(Stripped(x, dead), a, z) ==> Named(x, a, z))
  {
    var y := Stripped(x, dead);
    hide KeepsAll, KeepsSlots, NamedIn, NamedInSlots, Deferred, Defers;
    forall s | s in a.slices && s < |y.slices|
      ensures KeepsAll(a, y.slices[s].seg) && (NamedIn(z, y.slices[s].seg) ==> NamedIn(z, x.slices[s].seg))
    {
      assert KeepsAll(a, x.slices[s].seg);
      StrippedSeg(x.slices[s].seg, a, z);
    }
  }

  lemma StrippedSeg(seg: seq<K>, a: Alive, z: nat)
    requires KeepsAll(a, seg)
    ensures KeepsAll(a, Deferred(Defers(seg))) && (NamedIn(z, Deferred(Defers(seg))) ==> NamedIn(z, seg))
  {
    hide KeepsAll, NamedIn, Deferred, Defers, NamesAll;
    DefersKept(seg, a);
    StrippedKeeps(Defers(seg), a);
    StrippedNames(Defers(seg), z);
    if NamedIn(z, Deferred(Defers(seg))) {
      DefersNamed(seg, z);
    }
  }

  function Below(n: nat): (r: set<nat>)
    ensures forall i: nat :: i in r <==> i < n
  {
    if n == 0 then {} else Below(n - 1) + {n - 1}
  }

  /** Everything there is. */
  ghost function All(x: State): Alive {
    Alive(Below(|x.frames|) + (set i | 0 <= i < |x.kont| && x.kont[i].Ret? :: x.kont[i].frame)
          + (set r, i | 0 <= r < |x.slices| && 0 <= i < |x.slices[r].seg| && x.slices[r].seg[i].Ret? :: x.slices[r].seg[i].frame)
          + (if x.focus.Run? then {x.focus.frame} else {}),
          Below(|x.slices|))
  }

  /** The counts know a dead slice for one. */
  lemma DeadUnowned(x: State, dead: set<nat>, q: nat)
    requires Dead(x, dead) && q in dead
    ensures !Owned(x, q)
  {
    var a, n := All(x), |x.slices|;
    hide Names, KNames;
    AllKeeps(x, dead, x.kont);
    forall f | 0 <= f < |x.frames|
      ensures KeepsSlots(a, x.frames[f]) && !NamedInSlots(q, x.frames[f])
    {
      assert FreeSlots(x.frames[f], Bad(dead, n));
    }
    forall r | 0 <= r < n
      ensures KeepsAll(a, x.slices[r].seg) && !NamedIn(q, x.slices[r].seg)
    {
      assert FreeKs(x.slices[r].seg, Bad(dead, n)) && Numbered(x.slices[r].seg, n);
      AllKeeps(x, dead, x.slices[r].seg);
      NoneNamed(x.slices[r].seg, dead, n, q);
    }
    NoneNamed(x.kont, dead, n, q);
    hide KeepsAll, KeepsSlots, NamedIn, NamedInSlots, FreeKs, FreeSlots, Numbered;
    assert FreeFocus(x.focus, Bad(dead, n));
    assert Closed(x, a) && !Named(x, a, q);
  }

  lemma NoneNamed(ks: seq<K>, dead: set<nat>, n: nat, q: nat)
    requires FreeKs(ks, Bad(dead, n)) && q in dead
    ensures !NamedIn(q, ks)
  {
  }

  lemma AllKeeps(x: State, dead: set<nat>, ks: seq<K>)
    requires FreeKs(ks, Bad(dead, |x.slices|)) && Numbered(ks, |x.slices|)
    requires forall i :: 0 <= i < |ks| && ks[i].Ret? ==> ks[i].frame in All(x).frames
    ensures KeepsAll(All(x), ks)
  {
    hide KNames;
    forall i | 0 <= i < |ks|
      ensures KNames(ks[i]) <= All(x).slices
    {
      assert Free(KNames(ks[i]), Bad(dead, |x.slices|));
    }
  }

  // ---- the condition, on the capturing machine alone ----------------------

  /** The boundary being passed, if there is a cleanup at stake, is of a slice that is not
      owned only through what dead slices hold. */
  ghost predicate Unspoiled(x: State, dead: set<nat>) {
    AtBoundary(x) && Bounding(x) !in dead && AtStake(x) != [] && Owned(x, Bounding(x)) ==> Owned(Stripped(x, dead), Bounding(x))
  }

  /** The capturing machine's next state, by its own counts. */
  ghost function Captures(p: Program, x: State): State {
    Step(p, CAPTURES, x, Counts(p)(x))
  }

  ghost predicate Clean(p: Program, x: State, dead: set<nat>, n: nat)
    decreases n
  {
    n > 0 ==> Unspoiled(x, dead) && Clean(p, Captures(p, x), NextDead(p, x, dead), n - 1)
  }

  ghost function DeadAfter(p: Program, x: State, dead: set<nat>, n: nat): set<nat>
    decreases n
  {
    if n == 0 then dead else DeadAfter(p, Captures(p, x), NextDead(p, x, dead), n - 1)
  }

  // ---- two machines, each by its own counts -------------------------------

  /** A boundary of a slice that is not dead is met by both. */
  lemma BothMeet(x: State, dead: set<nat>)
    requires Dead(x, dead) && AtBoundary(x) && Bounding(x) !in dead
    ensures var w := Without(x, dead); AtBoundary(w) && Bounding(w) == Bounding(x) && AtStake(w) == AtStake(x)
  {
    BoundaryPop(x, dead);
    var r := Bounding(x);
    hide Dead, Image, Defers;
    ImageDefers(x.slices[r].seg, x.slices, dead);
  }

  /** What the counts of the two say of it. */
  lemma CountsDiffer(p: Program, x: State, dead: set<nat>)
    requires Dead(x, dead) && AtBoundary(x) && Bounding(x) !in dead
    ensures var a, b, r := Counts(p)(x).owned, Counts(p)(Without(x, dead)).owned, Bounding(x);
            && (b ==> a) && (a == b <==> (Owned(x, r) ==> Owned(Stripped(x, dead), r)))
  {
    BothMeet(x, dead);
    hide Owned, Dead, Stripped, Without, AtBoundary;
    StrippedIsSkipped(x, dead, Bounding(x));
    if Owned(Stripped(x, dead), Bounding(x)) {
      StrippedOwns(x, dead, Bounding(x));
    }
  }

  /** The two differ on a boundary where there is nothing at stake. */
  ghost predicate Differ(p: Program, x: State, dead: set<nat>) {
    AtBoundary(x) && Bounding(x) !in dead && AtStake(x) == [] && Counts(p)(x).owned != Counts(p)(Without(x, dead)).owned
  }

  lemma CountsTell(p: Program, x: State, dead: set<nat>)
    requires Dead(x, dead) && Unspoiled(x, dead) && !Differ(p, x, dead)
    ensures ToldAlike(x, dead, Counts(p)(x), Counts(p)(Without(x, dead)))
  {
    hide Owned, Dead, Stripped, Without, AtStake;
    if AtBoundary(x) {
      if Bounding(x) in dead {
        DeadUnowned(x, dead, Bounding(x));
      } else {
        CountsDiffer(p, x, dead);
      }
    }
  }

  /** A dead boundary with nothing to clean up takes the capturing machine two steps. */
  lemma SilentPassed(p: Program, x: State, dead: set<nat>)
    requires Dead(x, dead) && Silent(x, dead)
    ensures var y := Captures(p, Captures(p, x));
            Dead(y, dead) && Without(y, dead) == Without(x, dead) && |y.kont| < |x.kont| && Passing(Captures(p, x))
    ensures NextDead(p, x, dead) == dead && NextDead(p, Captures(p, x), dead) == dead
  {
    DeadUnowned(x, dead, Bounding(x));
    hide Owned, Dead, Without;
    var a := Counts(p)(x);
    assert !a.owned;
    SilentStep(p, x, dead, a, Counts(p)(Captures(p, x)));
    SilentReturns(p, x, dead, a);
  }

  lemma SilentReturns(p: Program, x: State, dead: set<nat>, a: Ask)
    requires Silent(x, dead) && !a.owned
    ensures Passing(Step(p, CAPTURES, x, a))
  {
    assert Deferred([]) == [];
  }

  /** A live boundary with nothing at stake takes the machine that finds its slice owned
      one step, and the other two. */
  lemma DifferPassed(p: Program, x: State, dead: set<nat>)
    requires NoForging(p) && Dead(x, dead) && Differ(p, x, dead)
    ensures var y, w1 := Captures(p, x), Step(p, COPIES, Without(x, dead), Counts(p)(Without(x, dead)));
            Dead(y, dead) && NextDead(p, x, dead) == dead && Step(p, COPIES, w1, Counts(p)(w1)) == Without(y, dead)
  {
    var w, o := Without(x, dead), Ask(true, false);
    CountsDiffer(p, x, dead);
    BothMeet(x, dead);
    var a, b := Counts(p)(x), Counts(p)(w);
    assert a.owned && !b.owned && x.focus.Return? && !Silent(x, dead) && ToldAlike(x, dead, a, o);
    hide *;
    NothingAtStake(p, COPIES, w, b, Counts(p)(Step(p, COPIES, w, b)), o);
    StepMatched(p, x, dead, a, o);
    NoneDead(p, x, dead);
    CapturesIs(p, x);
  }

  lemma NoneDead(p: Program, x: State, dead: set<nat>)
    requires x.focus.Return?
    ensures NextDead(p, x, dead) == dead
  {
  }

  lemma CapturesIs(p: Program, x: State)
    ensures Captures(p, x) == Step(p, CAPTURES, x, Counts(p)(x))
  {
  }

  // ---- whole runs ---------------------------------------------------------

  /** What `n` more steps of each machine come to. */
  lemma CaptureOn(p: Program, x: State, dead: set<nat>, n: nat)
    ensures RunBy(p, CAPTURES, Counts(p), x, n + 1) == RunBy(p, CAPTURES, Counts(p), Captures(p, x), n)
    ensures DeadAfter(p, x, dead, n + 1) == DeadAfter(p, Captures(p, x), NextDead(p, x, dead), n)
    ensures Clean(p, x, dead, n + 1) ==> Unspoiled(x, dead) && Clean(p, Captures(p, x), NextDead(p, x, dead), n)
    ensures RunBy(p, CAPTURES, Counts(p), x, 0) == x && DeadAfter(p, x, dead, 0) == dead
  {
    hide Counts, Step, NextDead, Unspoiled;
  }

  lemma SkipOn(p: Program, w: State, n: nat)
    ensures RunBy(p, COPIES, Counts(p), w, n + 1) == RunBy(p, COPIES, Counts(p), Step(p, COPIES, w, Counts(p)(w)), n)
    ensures RunBy(p, COPIES, Counts(p), w, 0) == w
  {
    hide Counts, Step;
  }

  /** The states of the two machines after `n` and `k` steps stand for each other. */
  ghost predicate Reached(p: Program, x: State, dead: set<nat>, n: nat, k: nat) {
    var y, dead' := RunBy(p, CAPTURES, Counts(p), x, n), DeadAfter(p, x, dead, n);
    Dead(y, dead') && RunBy(p, COPIES, Counts(p), Without(x, dead), k) == Without(y, dead')
  }

  lemma ReachedHere(p: Program, x: State, dead: set<nat>)
    requires Dead(x, dead)
    ensures Reached(p, x, dead, 0, 0)
  {
    CaptureOn(p, x, dead, 0);
    SkipOn(p, Without(x, dead), 0);
    hide Dead, Without, RunBy, DeadAfter, Counts;
  }

  /** From there on, one step of each: */
  lemma ReachedByBoth(p: Program, x: State, dead: set<nat>, n: nat, k: nat)
    requires var w := Without(x, dead); Step(p, COPIES, w, Counts(p)(w)) == Without(Captures(p, x), NextDead(p, x, dead))
    requires Reached(p, Captures(p, x), NextDead(p, x, dead), n, k)
    ensures Reached(p, x, dead, n + 1, k + 1)
  {
    CaptureOn(p, x, dead, n);
    SkipOn(p, Without(x, dead), k);
    hide Dead, Without, RunBy, DeadAfter, Counts, Step, Captures, NextDead;
  }

  /** Two of the capturing machine, past a dead boundary with nothing to clean up: */
  lemma ReachedSilently(p: Program, x: State, dead: set<nat>, n: nat, k: nat)
    requires var y := Captures(p, x); NextDead(p, x, dead) == dead && NextDead(p, y, dead) == dead && Without(Captures(p, y), dead) == Without(x, dead)
    requires Reached(p, Captures(p, Captures(p, x)), dead, n, k)
    ensures Reached(p, x, dead, n + 2, k)
  {
    CaptureOn(p, x, dead, n + 1);
    CaptureOn(p, Captures(p, x), dead, n);
    hide Dead, Without, RunBy, DeadAfter, Counts, Step, Captures, NextDead;
  }

  /** One of it and two of the other, past a live one. */
  lemma ReachedApart(p: Program, x: State, dead: set<nat>, n: nat, k: nat)
    requires var w := Without(x, dead);
             var w1 := Step(p, COPIES, w, Counts(p)(w));
             NextDead(p, x, dead) == dead && Step(p, COPIES, w1, Counts(p)(w1)) == Without(Captures(p, x), dead)
    requires Reached(p, Captures(p, x), dead, n, k)
    ensures Reached(p, x, dead, n + 1, k + 2)
  {
    var w := Without(x, dead);
    CaptureOn(p, x, dead, n);
    SkipOn(p, w, k + 1);
    SkipOn(p, Step(p, COPIES, w, Counts(p)(w)), k);
    hide Dead, Without, RunBy, DeadAfter, Counts, Step, Captures, NextDead;
  }

  /** Each machine by its own counts: after any number of steps of the one that captures,
      or one more while it is passing a boundary, the one that skips has come as far. */
  lemma {:induction false} SkipTogether(p: Program, x: State, dead: set<nat>, n: nat) returns (more: nat, k: nat)
    requires NoForging(p) && Dead(x, dead) && Clean(p, x, dead, n)
    ensures n <= more <= n + 1 && (more > n ==> Passing(RunBy(p, CAPTURES, Counts(p), x, n))) && Reached(p, x, dead, more, k)
    decreases n
  {
    hide *;
    if n == 0 {
      more, k := 0, 0;
      ReachedHere(p, x, dead);
    } else {
      CaptureOn(p, x, dead, n - 1);
      if Silent(x, dead) {
        SilentPassed(p, x, dead);
        var y := Captures(p, Captures(p, x));
        if n == 1 {
          more, k := 0, 0;
          ReachedHere(p, y, dead);
          CaptureOn(p, Captures(p, x), dead, 0);
        } else {
          CaptureOn(p, Captures(p, x), dead, n - 2);
          more, k := SkipTogether(p, y, dead, n - 2);
        }
        ReachedSilently(p, x, dead, more, k);
        more := more + 2;
      } else {
        more, k := LiveTogether(p, x, dead, n);
      }
    }
  }

  lemma {:induction false} LiveTogether(p: Program, x: State, dead: set<nat>, n: nat) returns (more: nat, k: nat)
    requires NoForging(p) && Dead(x, dead) && Clean(p, x, dead, n) && n > 0 && !Silent(x, dead)
    ensures n <= more <= n + 1 && (more > n ==> Passing(RunBy(p, CAPTURES, Counts(p), x, n))) && Reached(p, x, dead, more, k)
    decreases n, 0
  {
    hide *;
    CaptureOn(p, x, dead, n - 1);
    LiveStep(p, x, dead);
    more, k := SkipTogether(p, Captures(p, x), NextDead(p, x, dead), n - 1);
    if Differ(p, x, dead) {
      DifferPassed(p, x, dead);
      ReachedApart(p, x, dead, more, k);
      more, k := more + 1, k + 2;
    } else {
      ReachedByBoth(p, x, dead, more, k);
      more, k := more + 1, k + 1;
    }
  }

  lemma LiveStep(p: Program, x: State, dead: set<nat>)
    requires NoForging(p) && Dead(x, dead) && Unspoiled(x, dead) && !Silent(x, dead)
    ensures Dead(Captures(p, x), NextDead(p, x, dead))
    ensures var w := Without(x, dead); !Differ(p, x, dead) ==> Step(p, COPIES, w, Counts(p)(w)) == Without(Captures(p, x), NextDead(p, x, dead))
  {
    hide *;
    if Differ(p, x, dead) {
      DifferPassed(p, x, dead);
    } else {
      CountsTell(p, x, dead);
      CapturesIs(p, x);
      StepMatched(p, x, dead, Counts(p)(x), Counts(p)(Without(x, dead)));
    }
  }

  lemma ReachedSeen(p: Program, x: State, dead: set<nat>, n: nat, k: nat)
    requires Reached(p, x, dead, n, k)
    ensures SeenAlike(RunBy(p, CAPTURES, Counts(p), x, n), RunBy(p, COPIES, Counts(p), Without(x, dead), k))
    ensures var y := RunBy(p, CAPTURES, Counts(p), x, n);
            y.trace == RunBy(p, COPIES, Counts(p), Without(x, dead), k).trace && (Ended(y) <==> Ended(RunBy(p, COPIES, Counts(p), Without(x, dead), k)))
  {
    hide RunBy, DeadAfter, Counts, Image, SlicesImage;
  }

  /** A run starts with no continuation, no slice, and no resumption. */
  ghost predicate Starts(x: State) {
    x.kont == [] && x.slices == [] && Unnamed(x, Bad({}, 0))
  }

  /** When a run that captures every slice ends, a run that keeps no slice of a clause that
      cannot resume ends, each by its own counts, seen alike. */
  lemma CapturingIsSkippingByCounts(p: Program, x: State, n: nat) returns (k: nat)
    requires NoForging(p) && Starts(x) && Clean(p, x, {}, n) && Ended(RunBy(p, CAPTURES, Counts(p), x, n))
    ensures SeenAlike(RunBy(p, CAPTURES, Counts(p), x, n), RunBy(p, COPIES, Counts(p), x, k))
  {
    StartIsDead(x);
    hide NoForging, Clean, Dead, RunBy, Without;
    var more, l := SkipTogether(p, x, {}, n);
    k := l;
    ReachedSeen(p, x, {}, n, k);
  }

  /** And the other way round. */
  lemma SkippingIsCapturingByCounts(p: Program, x: State, k: nat) returns (n: nat)
    requires NoForging(p) && Starts(x) && Ended(RunBy(p, COPIES, Counts(p), x, k))
    requires forall i: nat :: Clean(p, x, {}, i)
    ensures SeenAlike(RunBy(p, CAPTURES, Counts(p), x, n), RunBy(p, COPIES, Counts(p), x, k))
  {
    StartIsDead(x);
    hide NoForging, Clean, Dead, RunBy, Without;
    n := FarEnough(p, x, {}, k);
    ReachedSeen(p, x, {}, n, k);
  }

  /** The capturing machine gets to where the skipping one ends. */
  lemma {:induction false} FarEnough(p: Program, x: State, dead: set<nat>, k: nat) returns (n: nat)
    requires NoForging(p) && Dead(x, dead) && (forall i: nat :: Clean(p, x, dead, i)) && Ended(RunBy(p, COPIES, Counts(p), Without(x, dead), k))
    ensures Reached(p, x, dead, n, k)
    decreases k, |x.kont|, 1
  {
    hide *;
    forall i: nat
      ensures Clean(p, Captures(p, x), NextDead(p, x, dead), i)
    {
      assert Clean(p, x, dead, i + 1);
      CaptureOn(p, x, dead, i);
    }
    assert Clean(p, x, dead, 0 + 1);
    CaptureOn(p, x, dead, 0);
    if Silent(x, dead) {
      SilentPassed(p, x, dead);
      forall i: nat
        ensures Clean(p, Captures(p, Captures(p, x)), dead, i)
      {
        assert Clean(p, Captures(p, x), dead, i + 1);
        CaptureOn(p, Captures(p, x), dead, i);
      }
      n := FarEnough(p, Captures(p, Captures(p, x)), dead, k);
      ReachedSilently(p, x, dead, n, k);
      n := n + 2;
    } else if k == 0 {
      n := 0;
      ReachedHere(p, x, dead);
    } else {
      n := FarOn(p, x, dead, k);
    }
  }

  lemma {:induction false} FarOn(p: Program, x: State, dead: set<nat>, k: nat) returns (n: nat)
    requires NoForging(p) && Dead(x, dead) && Unspoiled(x, dead) && !Silent(x, dead) && k > 0
    requires forall i: nat :: Clean(p, Captures(p, x), NextDead(p, x, dead), i)
    requires Ended(RunBy(p, COPIES, Counts(p), Without(x, dead), k))
    ensures Reached(p, x, dead, n, k)
    decreases k, |x.kont|, 0
  {
    hide *;
    var w := Without(x, dead);
    var w1 := Step(p, COPIES, w, Counts(p)(w));
    LiveStep(p, x, dead);
    SkipOn(p, w, k - 1);
    if Differ(p, x, dead) {
      DifferPassed(p, x, dead);
      DifferGoesOn(p, x, dead);
      if k == 1 {
        SkipOn(p, w1, 0);
        assert false;
      }
      SkipOn(p, w1, k - 2);
      n := FarEnough(p, Captures(p, x), dead, k - 2);
      ReachedApart(p, x, dead, n, k - 2);
    } else {
      n := FarEnough(p, Captures(p, x), NextDead(p, x, dead), k - 1);
      ReachedByBoth(p, x, dead, n, k - 1);
    }
    n := n + 1;
  }

  lemma DifferGoesOn(p: Program, x: State, dead: set<nat>)
    requires Dead(x, dead) && Differ(p, x, dead)
    ensures var w := Without(x, dead); !Ended(Step(p, COPIES, w, Counts(p)(w)))
  {
    BothMeet(x, dead);
    hide Dead, Without, Counts, Owned, Defers;
  }

  /** A boundary of a slice that is not dead, which the capturing machine comes to, the
      skipping machine comes to, with the same cleanups at stake; and there the two decide
      alike exactly when the slice is not owned only through what dead slices hold. */
  lemma PartExactlyThere(p: Program, x: State, n: nat) returns (k: nat)
    requires NoForging(p) && Starts(x) && Clean(p, x, {}, n) && AtBoundary(RunBy(p, CAPTURES, Counts(p), x, n))
    requires Bounding(RunBy(p, CAPTURES, Counts(p), x, n)) !in DeadAfter(p, x, {}, n)
    ensures var y, w, dead := RunBy(p, CAPTURES, Counts(p), x, n), RunBy(p, COPIES, Counts(p), x, k), DeadAfter(p, x, {}, n);
            && w.trace == y.trace && AtBoundary(w) && Bounding(w) == Bounding(y) && AtStake(w) == AtStake(y)
            && (Counts(p)(y).owned == Counts(p)(w).owned <==> (Owned(y, Bounding(y)) ==> Owned(Stripped(y, dead), Bounding(y))))
  {
    StartIsDead(x);
    hide NoForging, Clean, Dead, RunBy, Without, Owned, DeadAfter, Counts, AtStake, Stripped;
    var more, l := SkipTogether(p, x, {}, n);
    k := l;
    ReachedSeen(p, x, {}, n, k);
    var y, dead := RunBy(p, CAPTURES, Counts(p), x, n), DeadAfter(p, x, {}, n);
    BothMeet(y, dead);
    CountsDiffer(p, y, dead);
  }

  // ---- when dead slices hold nothing else ---------------------------------

  /** Besides its cleanups the slice names nothing: neither its frames' values nor its
      activations', and no boundary. */
  ghost predicate BareBut(seg: seq<K>, frames: seq<Slots>) {
    forall i :: 0 <= i < |seg| && !seg[i].Defer? ==>
      && KNames(seg[i]) == {} && !seg[i].AfterClause?
      && (seg[i].Ret? && seg[i].frame < |frames| ==>
            forall j :: 0 <= j < |frames[seg[i].frame]| && frames[seg[i].frame][j].Some? ==> Names(frames[seg[i].frame][j].value) == {})
  }

  ghost predicate BareDead(x: State, dead: set<nat>) {
    forall q :: q in dead && q < |x.slices| ==> BareBut(x.slices[q].seg, x.frames)
  }

  ghost function FramesOf(seg: seq<K>): set<nat> {
    set i | 0 <= i < |seg| && seg[i].Ret? :: seg[i].frame
  }

  ghost function WithFrames(x: State, dead: set<nat>, a: Alive): Alive {
    Alive(a.frames + set q, f | q in dead && q < |x.slices| && f in FramesOf(x.slices[q].seg) :: f, a.slices)
  }

  /** As long as no clause that cannot resume abandons a slice that names another, no
      boundary is spoiled. */
  lemma BareUnspoiled(x: State, dead: set<nat>)
    requires BareDead(x, dead)
    ensures Unspoiled(x, dead)
  {
    hide AtStake, Owned, Stripped, BareDead;
    if AtBoundary(x) && Owned(x, Bounding(x)) {
      BareStripped(x, dead, Bounding(x));
    }
  }

  lemma BareStripped(x: State, dead: set<nat>, z: nat)
    requires BareDead(x, dead) && Owned(x, z)
    ensures Owned(Stripped(x, dead), z)
  {
    hide Closed, Named, Stripped, BareDead;
    forall a | Closed(Stripped(x, dead), a)
      ensures Named(Stripped(x, dead), a, z)
    {
      BareAlive(x, dead, a, z);
    }
  }

  lemma BareAlive(x: State, dead: set<nat>, a: Alive, z: nat)
    requires BareDead(x, dead) && Closed(Stripped(x, dead), a)
    ensures Closed(x, WithFrames(x, dead, a)) && (Named(x, WithFrames(x, dead, a), z) ==> Named(Stripped(x, dead), a, z))
  {
    var y, b := Stripped(x, dead), WithFrames(x, dead, a);
    hide KeepsSlots, NamedIn, NamedInSlots, Deferred, Defers, KeepsAll, BareBut;
    KeepsWider(x.kont, a, b);
    forall f | f in b.frames && f < |x.frames|
      ensures KeepsSlots(b, x.frames[f]) && (NamedInSlots(z, x.frames[f]) ==> f in a.frames)
    {
      if f in a.frames {
        SlotsWider(a, b, x.frames[f]);
      } else {
        var q :| q in dead && q < |x.slices| && f in FramesOf(x.slices[q].seg);
        BareSlots(x.slices[q].seg, x.frames, f, b, z);
      }
    }
    forall s | s in b.slices && s < |x.slices|
      ensures KeepsAll(b, x.slices[s].seg) && (NamedIn(z, x.slices[s].seg) ==> NamedIn(z, y.slices[s].seg))
    {
      assert KeepsAll(a, y.slices[s].seg);
      if s in dead {
        assert forall f :: f in FramesOf(x.slices[s].seg) ==> f in b.frames;
        BareSeg(x.slices[s].seg, x.frames, a, b, z);
      } else {
        KeepsWider(x.slices[s].seg, a, b);
      }
    }
  }

  lemma KeepsWider(ks: seq<K>, a: Alive, b: Alive)
    requires KeepsAll(a, ks) && a.frames <= b.frames && b.slices == a.slices
    ensures KeepsAll(b, ks)
  {
    hide KNames;
    forall i | 0 <= i < |ks|
      ensures Keeps(b, ks[i])
    {
      assert Keeps(a, ks[i]);
    }
  }

  lemma SlotsWider(a: Alive, b: Alive, slots: Slots)
    requires KeepsSlots(a, slots) && b.slices == a.slices
    ensures KeepsSlots(b, slots)
  {
  }

  lemma BareSlots(seg: seq<K>, frames: seq<Slots>, f: nat, b: Alive, z: nat)
    requires BareBut(seg, frames) && f in FramesOf(seg) && f < |frames|
    ensures KeepsSlots(b, frames[f]) && !NamedInSlots(z, frames[f])
  {
  }

  lemma BareSeg(seg: seq<K>, frames: seq<Slots>, a: Alive, b: Alive, z: nat)
    requires BareBut(seg, frames) && KeepsAll(a, Deferred(Defers(seg))) && b.slices == a.slices && FramesOf(seg) <= b.frames
    ensures KeepsAll(b, seg) && (NamedIn(z, seg) ==> NamedIn(z, Deferred(Defers(seg))))
  {
    StrippedKeeps(Defers(seg), a);
    StrippedNames(Defers(seg), z);
    forall i | 0 <= i < |seg|
      ensures Keeps(b, seg[i]) && (z in KNames(seg[i]) ==> z in NamesAll(Defers(seg)))
    {
      if seg[i].Defer? {
        DeferIn(seg, i);
      } else if seg[i].Ret? {
        assert seg[i].frame in FramesOf(seg);
      }
    }
  }

  lemma {:induction false} DeferIn(seg: seq<K>, i: nat)
    requires i < |seg| && seg[i].Defer?
    ensures Names(seg[i].cleanup) <= NamesAll(Defers(seg))
    decreases |seg|
  {
    var n := |seg| - 1;
    if seg[n].Defer? {
      NamesJoin(Defers(seg[..n]), seg[n].cleanup);
    }
    if i < n {
      DeferIn(seg[..n], i);
    }
  }
}
