/** Resuming a slice that may be resumed again: a private copy of its frames.

    Values are immutable and stay shared.  What is copied is what a second resume
    would write again: the activations, and the box a recursive let's return frame
    patches.  An activation that two frames of the slice share stays one activation
    in the copy. */
module Copying {
  import opened Common
  import opened Objects
  import opened Kinds
  import opened Runtime
  import opened Continuations
  import opened Slots
  import opened Delivery

  /** `c` is a copy of the activation `f` of `h0`: the same closure and slots, but
      a fresh box in each of the slots `boxed` that held something. */
  ghost predicate Clone(h0: Store, h: Store, f: Ref, c: Ref, boxed: set<(Ref, nat)>) {
    && f < |h0| && |h0| <= c < |h| && h0[f].payload.Activation? && h[c].payload.Activation?
    && h[c].payload.clos == h0[f].payload.clos
    && |h[c].payload.locals| == |h0[f].payload.locals| && h[c].payload.tokens == h0[f].payload.tokens
    && forall l :: 0 <= l < |h0[f].payload.locals| ==>
         CloneSlot(h0, h, f, l, h[c].payload.locals[l], boxed)
  }

  ghost predicate CloneSlot(h0: Store, h: Store, f: Ref, l: nat, now: Option<Ref>, boxed: set<(Ref, nat)>)
    requires f < |h0| && h0[f].payload.Activation? && l < |h0[f].payload.locals|
  {
    var was := h0[f].payload.locals[l];
    if (f, l) in boxed && was.Some? then now.Some? && |h0| <= now.value < |h| && h[now.value].payload == Scalar(0) else now == was
  }

  /** The frame map of a copy in progress: `orig[j]` is copied as `copies[j]`; the slots
      `boxed` are those given boxes so far, each its own. */
  ghost predicate MapOk(h0: Store, h: Store, orig: seq<Ref>, copies: seq<Ref>, boxed: set<(Ref, nat)>) {
    && |orig| == |copies|
    && (forall i, j :: 0 <= i < j < |copies| ==> copies[i] < copies[j] && orig[i] != orig[j])
    && (forall j :: 0 <= j < |copies| ==> Clone(h0, h, orig[j], copies[j], boxed))
    && (forall f: Ref, l: nat :: (f, l) in boxed ==> f in orig) && (forall f :: f in orig ==> Rooted(h0, f))
    && Apart(h, copies, |h0|)
  }

  /** Slot `l` of activation `c` holds a box made for a copy. */
  predicate FreshIn(h: Store, c: Ref, l: nat, from: nat) {
    c < |h| && h[c].payload.Activation? && l < |h[c].payload.locals| && h[c].payload.locals[l].Some? && h[c].payload.locals[l].value >= from
  }

  /** No two slots of the copies hold one such box. */
  ghost predicate Apart(h: Store, copies: seq<Ref>, from: nat) {
    forall c: Ref, l: nat, d: Ref, k: nat ::
      (c in copies && d in copies && FreshIn(h, c, l, from) && FreshIn(h, d, k, from)
       && h[c].payload.locals[l] == h[d].payload.locals[k]) ==> c == d && l == k
  }

  /** What the activation holds is in the heap. */
  ghost predicate Rooted(h: Store, f: Ref) {
    f < |h| && h[f].payload.Activation? && forall l :: 0 <= l < |h[f].payload.locals| && h[f].payload.locals[l].Some? ==> h[f].payload.locals[l].value < |h|
  }

  lemma SameApart(h: Store, h': Store, copies: seq<Ref>, from: nat)
    requires Apart(h, copies, from) && |h| <= |h'| && forall c :: c in copies ==> c < |h| && h'[c].payload == h[c].payload
    ensures Apart(h', copies, from)
  {
    forall c: Ref, l: nat, d: Ref, k: nat | c in copies && d in copies && FreshIn(h', c, l, from) && FreshIn(h', d, k, from)
      && h'[c].payload.locals[l] == h'[d].payload.locals[k]
      ensures c == d && l == k
    {
      assert FreshIn(h, c, l, from) && FreshIn(h, d, k, from);
    }
  }

  /** The objects of `h0` are there in `h`, with the same payloads. */
  ghost predicate Extends(h0: Store, h: Store) {
    |h0| <= |h| && forall i :: 0 <= i < |h0| ==> h[i].payload == h0[i].payload
  }

  lemma ExtendsCounts(h0: Store, h: Store, h': Store)
    requires Extends(h0, h) && SameButCounts(h, h')
    ensures Extends(h0, h')
  {
  }

  // ---- one activation -----------------------------------------------------

  /** A fresh activation holding the same values as `f`. */
  method FrameClone(m: Machine, f: Ref) returns (c: Ref)
    requires Inv(m, None) && f < |m.heap| && m.heap[f].payload.Activation?
    modifies m
    ensures Inv(m, None) && m.kont == old(m.kont) && m.held == old(m.held) + multiset{c}
    ensures c == |old(m.heap)| && |m.heap| == c + 1 && SameButCounts(old(m.heap), m.heap[..c])
    ensures m.heap[c].payload == old(m.heap)[f].payload
  {
    hide Good, Inv, Present, PayloadOk;
    var p := m.heap[f].payload;
    ActivationCounted(m, f);
    ghost var h0, held := m.heap, m.held;
    RetainRow(m, [p.clos], None);
    StillCounted(m, h0, f);
    RetainRow(m, p.locals, None);
    SameOk(m, h0, f);
    ghost var h1 := m.heap;
    c := New(m, p, None);
    assert m.heap[..c] == h1;
    assert m.held == held + multiset{c};
  }

  lemma ActivationCounted(m: Machine, f: Ref)
    requires Inv(m, None) && f < |m.heap| && m.heap[f].payload.Activation?
    ensures Counted(m.heap, Present([m.heap[f].payload.clos], None))
    ensures Counted(m.heap, Present(m.heap[f].payload.locals, None))
  {
    hide Good, Present;
    PayloadCounted(m.heap, m.kont, m.held, None, f);
    var r := Refs(f, m.heap[f].payload);
    assert forall x: Ref :: x in Present([m.heap[f].payload.clos], None) ==> x in r;
    assert forall x: Ref :: x in Present(m.heap[f].payload.locals, None) ==> x in r;
  }

  lemma StillCounted(m: Machine, h0: Store, f: Ref)
    requires Inv(m, None) && SameButCounts(h0, m.heap) && f < |h0| && h0[f].payload.Activation?
    ensures Counted(m.heap, Present(h0[f].payload.locals, None))
  {
    hide Good, Inv, Counted, Present;
    ActivationCounted(m, f);
  }

  lemma SameOk(m: Machine, h0: Store, f: Ref)
    requires Inv(m, None) && f < |h0| && SameButCounts(h0, m.heap)
    ensures PayloadOk(m.heap, h0[f].payload)
  {
    hide Exact, SegOk, Intact, PayloadOk;
    KindedAt(m.heap, f);
  }

  /** The activation standing for `f` in the copy, made on first meeting it.  The
      map keeps a reference of its own on each. */
  method FrameCopyOf(m: Machine, f: Ref, orig: seq<Ref>, copies: seq<Ref>, ghost h0: Store, ghost boxed: set<(Ref, nat)>)
      returns (c: Ref, orig': seq<Ref>, copies': seq<Ref>)
    requires Inv(m, None) && Extends(h0, m.heap) && MapOk(h0, m.heap, orig, copies, boxed)
    requires Rooted(h0, f) && multiset(copies) <= m.held
    modifies m
    ensures Inv(m, None) && Extends(h0, m.heap) && MapOk(h0, m.heap, orig', copies', boxed)
    ensures m.kont == old(m.kont) && orig <= orig' && copies <= copies'
    ensures m.held == old(m.held) - multiset(copies) + multiset(copies') + multiset{c}
    ensures exists j :: 0 <= j < |orig'| && orig'[j] == f && copies'[j] == c
    ensures copies' == copies || copies' == copies + [c]
  {
    hide Good, Inv, Clone, Apart;
    ghost var h1 := m.heap;
    for i := 0 to |orig|
      invariant m.heap == h1 && m.held == old(m.held) && m.kont == old(m.kont) && Inv(m, None)
      invariant f !in orig[..i]
    {
      if orig[i] == f {
        c := copies[i];
        assert c in multiset(copies);
        InHand(m, c);
        Retain(m, c, None);
        orig', copies' := orig, copies;
        MapCounts(h0, h1, m.heap, orig, copies, boxed);
        return;
      }
    }
    assert orig[..|orig|] == orig;
    c := FrameClone(m, f);
    assert c in m.held;
    InHand(m, c);
    Retain(m, c, None);
    orig', copies' := orig + [f], copies + [c];
    MapGrows(h0, h1, m.heap, orig, copies, boxed, f, c);
    assert multiset(copies') == multiset(copies) + multiset{c};
    assert orig'[|orig|] == f && copies'[|orig|] == c;
  }

  lemma MapCounts(h0: Store, h: Store, h': Store, orig: seq<Ref>, copies: seq<Ref>, boxed: set<(Ref, nat)>)
    requires MapOk(h0, h, orig, copies, boxed) && SameButCounts(h, h')
    ensures MapOk(h0, h', orig, copies, boxed)
  {
    assert forall j :: 0 <= j < |copies| ==> Clone(h0, h, orig[j], copies[j], boxed);
    SameApart(h, h', copies, |h0|);
    hide Apart;
    forall j | 0 <= j < |copies|
      ensures Clone(h0, h', orig[j], copies[j], boxed)
    {
      assert Clone(h0, h, orig[j], copies[j], boxed);
    }
  }

  lemma MapGrows(h0: Store, h: Store, h': Store, orig: seq<Ref>, copies: seq<Ref>, boxed: set<(Ref, nat)>, f: Ref, c: Ref)
    requires Extends(h0, h) && MapOk(h0, h, orig, copies, boxed)
    requires f < |h0| <= |h| && c == |h| && |h'| == c + 1 && SameButCounts(h, h'[..c])
    requires h'[c].payload == h[f].payload
    requires Rooted(h0, f) && f !in orig
    ensures MapOk(h0, h', orig + [f], copies + [c], boxed)
  {
    hide Apart;
    assert forall l :: (f, l) !in boxed;
    assert forall j :: 0 <= j < |copies| ==> Clone(h0, h, orig[j], copies[j], boxed);
    ApartGrows(h, h', copies, |h0|, c);
    assert Clone(h0, h', f, c, boxed) by {
      CloneExact(h0, h', f, c, boxed);
    }
    forall j | 0 <= j < |copies|
      ensures Clone(h0, h', orig[j], copies[j], boxed)
    {
      assert Clone(h0, h, orig[j], copies[j], boxed);
      CloneGrows(h0, h, h', orig[j], copies[j], boxed);
    }
    assert forall j :: 0 <= j < |orig| ==> orig[j] in orig;
  }

  /** An activation without such boxes joins the copies. */
  lemma ApartGrows(h: Store, h': Store, copies: seq<Ref>, from: nat, c: Ref)
    requires Apart(h, copies, from) && c == |h| && |h'| == c + 1 && SameButCounts(h, h'[..c])
    requires forall d :: d in copies ==> d < |h|
    requires h'[c].payload.Activation? && forall l :: 0 <= l < |h'[c].payload.locals| && h'[c].payload.locals[l].Some? ==> h'[c].payload.locals[l].value < from
    ensures Apart(h', copies + [c], from)
  {
    assert forall d :: 0 <= d < |h| ==> h'[..c][d] == h'[d];
    forall a: Ref, l: nat, d: Ref, k: nat | a in copies + [c] && d in copies + [c] && FreshIn(h', a, l, from) && FreshIn(h', d, k, from)
      && h'[a].payload.locals[l] == h'[d].payload.locals[k]
      ensures a == d && l == k
    {
      assert a in copies && d in copies;
      assert FreshIn(h, a, l, from) && FreshIn(h, d, k, from);
    }
  }

  lemma CloneGrows(h0: Store, h: Store, h': Store, f: Ref, c: Ref, boxed: set<(Ref, nat)>)
    requires Clone(h0, h, f, c, boxed) && |h| < |h'| && SameButCounts(h, h'[..|h|])
    ensures Clone(h0, h', f, c, boxed)
  {
    assert forall x :: 0 <= x < |h| ==> h'[..|h|][x] == h'[x];
  }

  lemma CloneExact(h0: Store, h: Store, f: Ref, c: Ref, boxed: set<(Ref, nat)>)
    requires f < |h0| && h0[f].payload.Activation? && |h0| <= c < |h| && h[c].payload == h0[f].payload
    requires forall l :: (f, l) !in boxed
    ensures Clone(h0, h, f, c, boxed)
  {
  }

  // ---- the box of a return frame ------------------------------------------

  /** What a slot swap in the copy `c` of `f`, followed by dropping what was there,
      leaves: the old objects as they were, and every copy still a copy. */
  lemma SwapKeepsMap(h0: Store, h1: Store, h2: Store, log: seq<Ref>, kont: seq<KFrame>, held: multiset<Ref>,
                     orig: seq<Ref>, copies: seq<Ref>, boxed: set<(Ref, nat)>)
    requires MapOk(h0, h1, orig, copies, boxed)
    requires Frees(h1, h2, log) && Good(h2, kont, held, None)
    requires multiset(copies) <= held
    ensures MapOk(h0, h2, orig, copies, boxed)
  {
    hide Exact, Frees, Kinded, SegOk, Intact, SegRefs, SegBounds, CloneSlot, Good, Apart;
    forall j | 0 <= j < |copies|
      ensures Clone(h0, h2, orig[j], copies[j], boxed)
    {
      assert Clone(h0, h1, orig[j], copies[j], boxed);
      assert copies[j] in multiset(copies);
      CloneSurvives(h0, h1, h2, log, kont, held, orig[j], copies[j], boxed);
    }
    FreesLength(h1, h2, log);
    forall c | c in copies
      ensures c < |h1| && h2[c].payload == h1[c].payload
    {
      assert c in multiset(copies);
      HeldStays(h1, h2, log, kont, held, c);
    }
    SameApart(h1, h2, copies, |h0|);
  }

  lemma FreesLength(h: Store, h': Store, log: seq<Ref>)
    requires Frees(h, h', log)
    ensures |h| == |h'|
  {
  }

  lemma CloneSurvives(h0: Store, h1: Store, h2: Store, log: seq<Ref>, kont: seq<KFrame>, held: multiset<Ref>,
                      f: Ref, c: Ref, boxed: set<(Ref, nat)>)
    requires Clone(h0, h1, f, c, boxed) && c in held
    requires Frees(h1, h2, log) && Good(h2, kont, held, None)
    ensures Clone(h0, h2, f, c, boxed)
  {
    hide Exact, Frees, Kinded, SegOk, Intact, SegRefs, SegBounds;
    assert (SegRefs(kont) + held)[c] > 0;
    StillThere(h1, h2, log, SegRefs(kont) + held, SegBounds(kont) + multiset{}, [], c);
    FreesLength(h1, h2, log);
    forall l | 0 <= l < |h0[f].payload.locals|
      ensures CloneSlot(h0, h2, f, l, h2[c].payload.locals[l], boxed)
    {
      assert CloneSlot(h0, h1, f, l, h1[c].payload.locals[l], boxed);
      if h2[c].payload.locals[l].Some? {
        BoxInSlot(h2, kont, held, c, l);
        NotFreedSame(h1, h2, log, h2[c].payload.locals[l].value);
      }
    }
  }

  /** The pair (`f`, `c`) is in the frame map. */
  ghost predicate Maps(orig: seq<Ref>, copies: seq<Ref>, f: Ref, c: Ref)
    requires |orig| == |copies|
  {
    exists j :: 0 <= j < |orig| && orig[j] == f && copies[j] == c
  }

  /** Put a fresh box in a slot of the copy `c` of `f`, taking out what was there:
      what the original holds in that slot, or a box made for an earlier frame. */
  method PutOwnBox(m: Machine, f: Ref, c: Ref, slot: nat, orig: seq<Ref>, copies: seq<Ref>, ghost h0: Store, ghost boxed: set<(Ref, nat)>)
      returns (was: Ref)
    requires Inv(m, None) && Extends(h0, m.heap) && MapOk(h0, m.heap, orig, copies, boxed)
    requires Clone(h0, m.heap, f, c, boxed) && Maps(orig, copies, f, c)
    requires ValueSlot(m.heap[c].payload, slot) && m.heap[c].payload.locals[slot].Some?
    modifies m
    ensures Inv(m, None) && Extends(h0, m.heap) && MapOk(h0, m.heap, orig, copies, boxed + {(f, slot)})
    ensures m.kont == old(m.kont) && m.held == old(m.held) + multiset{was}
    ensures f < |h0| && h0[f].payload.Activation? && slot < |h0[f].payload.locals|
    ensures h0[f].payload.locals[slot] == Some(was) || (|h0| <= was < |m.heap| && m.heap[was].payload == Scalar(0))
  {
    hide Good, Inv, CloneSlot, MapOk;
    ghost var h := m.heap;
    assert CloneSlot(h0, h, f, slot, h[c].payload.locals[slot], boxed);
    assert PayloadOk(m.heap, Scalar(0)) && Refs(|m.heap|, Scalar(0)) == multiset{} by { ScalarOwnsNothing(m.heap, m.heap, |m.heap|); }
    var b := New(m, Scalar(0), None);
    var old_ := PutSlot(m, c, slot, Some(b));
    was := old_.value;
    BoxedMap(h0, h, m.heap, f, c, slot, b, orig, copies, boxed);
    assert m.held == old(m.held) + multiset{was};
    TakenOut(h0, h, f, slot, h[c].payload.locals[slot], boxed);
    assert was < |h| ==> m.heap[was].payload == h[was].payload || was == c;
  }

  /** A slot of the copies that holds a fresh box holds one that is there. */
  lemma BoxesThere(h0: Store, h: Store, orig: seq<Ref>, copies: seq<Ref>, boxed: set<(Ref, nat)>, d: Ref, l: nat)
    requires MapOk(h0, h, orig, copies, boxed) && Extends(h0, h) && d in copies && FreshIn(h, d, l, |h0|)
    ensures h[d].payload.locals[l].value < |h|
  {
    var j :| 0 <= j < |copies| && copies[j] == d;
    assert orig[j] in orig;
    assert Rooted(h0, orig[j]) && Clone(h0, h, orig[j], d, boxed);
    assert CloneSlot(h0, h, orig[j], l, h[d].payload.locals[l], boxed);
  }

  lemma TakenOut(h0: Store, h: Store, f: Ref, slot: nat, now: Option<Ref>, boxed: set<(Ref, nat)>)
    requires f < |h0| && h0[f].payload.Activation? && slot < |h0[f].payload.locals|
    requires CloneSlot(h0, h, f, slot, now, boxed) && now.Some?
    ensures h0[f].payload.locals[slot] == now || (|h0| <= now.value < |h| && h[now.value].payload == Scalar(0))
  {
  }

  /** Give the copy `c` of `f` a box of its own in a slot that holds something. */
  method OwnBox(m: Machine, f: Ref, c: Ref, slot: nat, orig: seq<Ref>, copies: seq<Ref>, ghost h0: Store, ghost boxed: set<(Ref, nat)>)
    requires Inv(m, None) && Extends(h0, m.heap) && MapOk(h0, m.heap, orig, copies, boxed)
    requires Clone(h0, m.heap, f, c, boxed) && Maps(orig, copies, f, c)
    requires ValueSlot(m.heap[c].payload, slot) && m.heap[c].payload.locals[slot].Some?
    requires multiset(copies) <= m.held
    modifies m
    ensures Inv(m, None) && Extends(h0, m.heap) && MapOk(h0, m.heap, orig, copies, boxed + {(f, slot)})
    ensures m.kont == old(m.kont) && m.held == old(m.held)
  {
    hide Good, Inv, Frees, CloneSlot, Clone, MapOk, Extends;
    var was := PutOwnBox(m, f, c, slot, orig, copies, h0, boxed);
    ghost var h1 := m.heap;
    GoodOf(m);
    ghost var log := Drop(m, was, None);
    assert m.held == old(m.held);
    GoodOf(m);
    OldBoxStays(m, h1, old(m.held), log, f, slot, was, h0);
    SwapKeepsMap(h0, h1, m.heap, log, m.kont, m.held, orig, copies, boxed + {(f, slot)});
  }

  lemma BoxedMap(h0: Store, h: Store, h1: Store, f: Ref, c: Ref, slot: nat, b: Ref,
                 orig: seq<Ref>, copies: seq<Ref>, boxed: set<(Ref, nat)>)
    requires Extends(h0, h) && MapOk(h0, h, orig, copies, boxed) && Clone(h0, h, f, c, boxed)
    requires slot < |h[c].payload.locals| && h[c].payload.locals[slot].Some?
    requires Maps(orig, copies, f, c)
    requires b == |h| && |h1| == b + 1 && h1[b].payload == Scalar(0)
    requires h1[c].payload == h[c].payload.(locals := h[c].payload.locals[slot := Some(b)])
    requires forall i :: 0 <= i < |h| && i != c ==> h1[i].payload == h[i].payload
    ensures MapOk(h0, h1, orig, copies, boxed + {(f, slot)}) && Extends(h0, h1)
  {
    hide Apart;
    var k :| 0 <= k < |orig| && orig[k] == f && copies[k] == c;
    assert f in orig;
    forall j | 0 <= j < |copies|
      ensures copies[j] < |h| && Clone(h0, h1, orig[j], copies[j], boxed + {(f, slot)})
    {
      assert Clone(h0, h, orig[j], copies[j], boxed);
      if j != k {
        assert copies[j] != c && orig[j] != f;
      }
      forall l | 0 <= l < |h0[orig[j]].payload.locals|
        ensures CloneSlot(h0, h1, orig[j], l, h1[copies[j]].payload.locals[l], boxed + {(f, slot)})
      {
        assert CloneSlot(h0, h, orig[j], l, h[copies[j]].payload.locals[l], boxed);
      }
    }
    forall d: Ref, l: nat | d in copies && FreshIn(h, d, l, |h0|)
      ensures h[d].payload.locals[l].value < |h|
    {
      BoxesThere(h0, h, orig, copies, boxed, d, l);
    }
    ApartBoxed(h, h1, copies, |h0|, c, slot);
  }

  /** A slot that takes a box nothing else holds keeps the boxes apart. */
  lemma ApartBoxed(h: Store, h1: Store, copies: seq<Ref>, from: nat, c: Ref, slot: nat)
    requires Apart(h, copies, from) && |h1| == |h| + 1 && c < |h| && h[c].payload.Activation? && slot < |h[c].payload.locals|
    requires h1[c].payload == h[c].payload.(locals := h[c].payload.locals[slot := Some(|h|)])
    requires forall i :: 0 <= i < |h| && i != c ==> h1[i].payload == h[i].payload
    requires forall d :: d in copies ==> d < |h|
    requires forall d: Ref, l: nat :: d in copies && FreshIn(h, d, l, from) ==> h[d].payload.locals[l].value < |h|
    ensures Apart(h1, copies, from)
  {
    forall a: Ref, l: nat, d: Ref, k: nat | a in copies && d in copies && FreshIn(h1, a, l, from) && FreshIn(h1, d, k, from)
      && h1[a].payload.locals[l] == h1[d].payload.locals[k]
      ensures a == d && l == k
    {
      if !(a == c && l == slot) {
        assert FreshIn(h, a, l, from);
      }
      if !(d == c && k == slot) {
        assert FreshIn(h, d, k, from);
      }
    }
  }

  /** Dropping what the slot held frees no object of `h0`: either the original
      activation still holds it, or it is a box made for an earlier frame. */
  lemma OldBoxStays(m: Machine, h1: Store, held: multiset<Ref>, log: seq<Ref>, f: Ref, slot: nat, was: Ref, h0: Store)
    requires Inv(m, None) && m.held == held && Extends(h0, h1)
    requires Good(h1, m.kont, held + multiset{was}, None) && Frees(h1, m.heap, log)
    requires f < |h0| && h0[f].payload.Activation? && slot < |h0[f].payload.locals|
    requires h0[f].payload.locals[slot] == Some(was) || (|h0| <= was < |h1| && h1[was].payload == Scalar(0))
    ensures Extends(h0, m.heap)
  {
    hide AllRefs, AllBounds, Kinded, SegOk, Intact, SegRefs, SegBounds, Refs, Tallied;
    var roots := SegRefs(m.kont) + (held + multiset{was});
    assert SegRefs(m.kont) + held == roots - multiset{was};
    RootAlive(h1, roots, SegBounds(m.kont) + multiset{}, [], was);
    if h0[f].payload.locals[slot] == Some(was) {
      StillTwo(h1, roots, SegBounds(m.kont) + multiset{}, f, slot, was);
      NotTheLast(h1, m.heap, roots, SegBounds(m.kont) + multiset{}, log, was);
      FreesLength(h1, m.heap, log);
      assert forall i :: 0 <= i < |h1| ==> i !in log;
    } else {
      ScalarOwnsNothing(h1, h1, was);
      OnlyItself(h1, m.heap, roots, SegBounds(m.kont) + multiset{}, log, was);
      FreesLength(h1, m.heap, log);
      assert forall i :: 0 <= i < |h0| ==> i !in log;
    }
  }

  lemma StillTwo(h: Store, roots: multiset<Ref>, bounds: multiset<Ref>, f: Ref, slot: nat, was: Ref)
    requires Exact(h, roots, bounds, []) && roots[was] > 0
    requires f < |h| && h[f].payload.Activation? && slot < |h[f].payload.locals| && h[f].payload.locals[slot] == Some(was)
    ensures was < |h| && h[was].rc > 1
  {
    hide AllRefs, AllBounds, Present;
    RootAlive(h, roots, bounds, [], was);
    RefsBelow(h, f);
    PresentHas(h[f].payload.locals, None, slot);
    assert Refs(f, h[f].payload)[was] > 0;
    assert h[was].rc == (AllRefs(h) + roots)[was];
  }

  // ---- the other frames: shared, one more reference each ------------------

  method RetainFuns(m: Machine, clauses: seq<Clause>)
    requires Inv(m, None) && Counted(m.heap, Funs(clauses))
    modifies m
    ensures Inv(m, None) && m.kont == old(m.kont) && m.held == old(m.held) + Funs(clauses)
    ensures SameButCounts(old(m.heap), m.heap) && NoLess(old(m.heap), m.heap)
  {
    hide Good, Inv;
    assert clauses[0..] == clauses;
    for i := 0 to |clauses|
      invariant Inv(m, None) && m.kont == old(m.kont)
      invariant m.held + Funs(clauses[i..]) == old(m.held) + Funs(clauses)
      invariant SameButCounts(old(m.heap), m.heap) && NoLess(old(m.heap), m.heap)
    {
      FunsHas(clauses, i);
      assert clauses[i..][1..] == clauses[i + 1..];
      assert Funs(clauses[i..]) == multiset{clauses[i].fun} + Funs(clauses[i + 1..]);
      Retain(m, clauses[i].fun, None);
    }
  }

  method RetainMany(m: Machine, xs: seq<Ref>)
    requires Inv(m, None) && Counted(m.heap, multiset(xs))
    modifies m
    ensures Inv(m, None) && m.kont == old(m.kont) && m.held == old(m.held) + multiset(xs)
    ensures SameButCounts(old(m.heap), m.heap) && NoLess(old(m.heap), m.heap)
  {
    hide Good, Inv;
    for i := 0 to |xs|
      invariant Inv(m, None) && m.kont == old(m.kont) && m.held == old(m.held) + multiset(xs[..i])
      invariant SameButCounts(old(m.heap), m.heap) && NoLess(old(m.heap), m.heap)
    {
      assert xs[i] in multiset(xs);
      Retain(m, xs[i], None);
      assert xs[..i + 1] == xs[..i] + [xs[i]];
    }
    assert xs[..|xs|] == xs;
  }

  /** Retain what a frame that is no return frame and no boundary holds. */
  method RetainFrame(m: Machine, kf: KFrame)
    requires Inv(m, None) && !kf.KRet? && !kf.KAfterClause? && Counted(m.heap, KRefs(kf))
    modifies m
    ensures Inv(m, None) && m.kont == old(m.kont) && m.held == old(m.held) + KRefs(kf)
    ensures SameButCounts(old(m.heap), m.heap)
  {
    hide Good, Inv;
    match kf {
      case KPrompt(clauses, els) =>
        assert els in KRefs(kf);
        assert forall x: Ref :: x in Funs(clauses) ==> x in KRefs(kf);
        RetainFuns(m, clauses);
        Retain(m, els, None);
      case KDefer(cleanup) =>
        assert cleanup in KRefs(kf);
        Retain(m, cleanup, None);
      case KThunkRet(saved) =>
        assert saved in KRefs(kf);
        Retain(m, saved, None);
      case KCleanups(cleanups) =>
        RetainMany(m, cleanups);
    }
  }

  lemma BoundaryGood(h: Store, kont: seq<KFrame>, held: multiset<Ref>, s: Ref)
    requires Good(h, kont, held, None) && s < |h| && h[s].rc > 0 && h[s].payload.Slice?
    ensures Good(h[s := h[s].(rc := h[s].rc + 1, nbound := h[s].nbound + 1)], kont + [KAfterClause(s)], held, None)
  {
    hide Exact, Kinded, SegOk, Intact, SegRefs, SegBounds;
    var h1 := h[s := h[s].(rc := h[s].rc + 1)];
    var h2 := h1[s := h1[s].(nbound := h1[s].nbound + 1)];
    var roots, bounds := SegRefs(kont) + held, SegBounds(kont) + multiset{};
    AddRoot(h, roots, bounds, [], s);
    AddBound(h1, roots + multiset{s}, bounds, [], s);
    PushRefs(kont, KAfterClause(s));
    assert SegRefs(kont + [KAfterClause(s)]) + held == roots + multiset{s};
    assert SegBounds(kont + [KAfterClause(s)]) + multiset{} == bounds + multiset{s};
    assert h2 == h[s := h[s].(rc := h[s].rc + 1, nbound := h[s].nbound + 1)];
    CountKinded(h, h2);
    BoundaryOk(h2, kont, s);
  }

  lemma BoundaryOk(h: Store, kont: seq<KFrame>, s: Ref)
    requires SegOk(h, kont) && s < |h| && h[s].payload.Slice?
    ensures SegOk(h, kont + [KAfterClause(s)])
  {
  }

  /** Push a copy of a frame that is no return frame: the same frame, counted once
      more.  A boundary of the slice becomes one more boundary of its own slice. */
  method PushCopy(m: Machine, kf: KFrame)
    requires Inv(m, None) && !kf.KRet? && FrameOk(m.heap, kf) && Counted(m.heap, KRefs(kf))
    modifies m
    ensures Inv(m, None) && m.kont == old(m.kont) + [kf] && m.held == old(m.held)
    ensures SameButCounts(old(m.heap), m.heap)
  {
    hide Good;
    if kf.KAfterClause? {
      var s := kf.res;
      assert s in KRefs(kf);
      BoundaryGood(m.heap, m.kont, m.held, s);
      m.heap := m.heap[s := m.heap[s].(rc := m.heap[s].rc + 1, nbound := m.heap[s].nbound + 1)];
      m.kont := m.kont + [kf];
    } else {
      ghost var h0 := m.heap;
      RetainFrame(m, kf);
      SameFrameOk(h0, m.heap, kf);
      Push(m, kf, None);
      assert m.held == old(m.held);
    }
  }

  lemma SameFrameOk(h: Store, h': Store, kf: KFrame)
    requires FrameOk(h, kf) && SameButCounts(h, h')
    ensures FrameOk(h', kf)
  {
    SameObjectsFrame(h, h', kf);
  }

  // ---- the whole slice ----------------------------------------------------

  /** The slot a return frame fills. */
  ghost function Boxes(kf: KFrame): set<(Ref, nat)> {
    if kf.KRet? then {(kf.frame, kf.slot)} else {}
  }

  lemma ReturnSlotsMore(seg: seq<KFrame>, i: nat)
    requires i < |seg|
    ensures ReturnSlots(seg[..i + 1]) == ReturnSlots(seg[..i]) + Boxes(seg[i])
  {
    assert seg[..i + 1] == seg[..i] + [seg[i]];
    forall x | x in ReturnSlots(seg[..i]) + Boxes(seg[i])
      ensures x in ReturnSlots(seg[..i + 1])
    {
      if x in ReturnSlots(seg[..i]) {
        var k :| 0 <= k < i && seg[k].KRet? && x == (seg[k].frame, seg[k].slot);
        assert seg[..i + 1][k] == seg[k];
      } else {
        assert seg[..i + 1][i] == seg[i];
      }
    }
    forall x | x in ReturnSlots(seg[..i + 1])
      ensures x in ReturnSlots(seg[..i]) + Boxes(seg[i])
    {
      var k :| 0 <= k < i + 1 && seg[k].KRet? && x == (seg[k].frame, seg[k].slot);
      if k < i {
        assert seg[..i][k] == seg[k];
      }
    }
  }

  /** The slots the return frames of a slice fill. */
  ghost function ReturnSlots(seg: seq<KFrame>): set<(Ref, nat)> {
    set k | 0 <= k < |seg| && seg[k].KRet? :: (seg[k].frame, seg[k].slot)
  }

  /** `kf'` copies `kf` under the frame map. */
  ghost predicate FrameCopied(orig: seq<Ref>, copies: seq<Ref>, kf: KFrame, kf': KFrame)
    requires |orig| == |copies|
  {
    if kf.KRet? then kf'.KRet? && kf'.slot == kf.slot && kf'.cont == kf.cont && Maps(orig, copies, kf.frame, kf'.frame)
    else kf' == kf
  }

  /** `out` is a copy of the slice `seg` of `h0`: frame by frame the same, but for
      fresh activations that agree with the originals, two frames sharing one
      exactly when the originals did. */
  ghost predicate CopyOf(h0: Store, seg: seq<KFrame>, h: Store, out: seq<KFrame>, orig: seq<Ref>, copies: seq<Ref>) {
    && MapOk(h0, h, orig, copies, ReturnSlots(seg))
    && |out| == |seg|
    && forall i :: 0 <= i < |seg| ==> FrameCopied(orig, copies, seg[i], out[i])
  }

  /** Sharing is kept: two return frames of the copy have one activation exactly
      when the originals have. */
  lemma CopyKeepsSharing(h0: Store, seg: seq<KFrame>, h: Store, out: seq<KFrame>, orig: seq<Ref>, copies: seq<Ref>, i: nat, k: nat)
    requires CopyOf(h0, seg, h, out, orig, copies)
    requires i < |seg| && k < |seg| && seg[i].KRet? && seg[k].KRet?
    ensures out[i].KRet? && out[k].KRet?
    ensures out[i].frame == out[k].frame <==> seg[i].frame == seg[k].frame
  {
    hide Clone;
    assert FrameCopied(orig, copies, seg[i], out[i]) && FrameCopied(orig, copies, seg[k], out[k]);
    var a :| 0 <= a < |orig| && orig[a] == seg[i].frame && copies[a] == out[i].frame;
    var b :| 0 <= b < |orig| && orig[b] == seg[k].frame && copies[b] == out[k].frame;
    assert a < b || a == b || b < a;
  }

  /** No return frame of the slice has a box in its slot: none belongs to a recursive
      let. */
  ghost predicate NoBoxes(h: Store, seg: seq<KFrame>) {
    forall k :: 0 <= k < |seg| && seg[k].KRet? ==> EmptySlot(h, seg[k].frame, seg[k].slot)
  }

  ghost predicate EmptySlot(h: Store, f: Ref, slot: nat) {
    f < |h| && h[f].payload.Activation? && slot < |h[f].payload.locals| && h[f].payload.locals[slot].None?
  }

  /** With no box in any slot the slice returns to, every copied activation holds
      exactly what its original holds. */
  lemma CopyIsExact(h0: Store, seg: seq<KFrame>, h: Store, out: seq<KFrame>, orig: seq<Ref>, copies: seq<Ref>, i: nat)
    requires CopyOf(h0, seg, h, out, orig, copies) && i < |seg| && seg[i].KRet?
    requires NoBoxes(h0, seg)
    ensures out[i].KRet? && out[i].frame < |h| && h[out[i].frame].payload == h0[seg[i].frame].payload
  {
    assert FrameCopied(orig, copies, seg[i], out[i]);
    var a :| 0 <= a < |orig| && orig[a] == seg[i].frame && copies[a] == out[i].frame;
    var f, c := orig[a], copies[a];
    assert Clone(h0, h, f, c, ReturnSlots(seg));
    forall l | 0 <= l < |h0[f].payload.locals|
      ensures h[c].payload.locals[l] == h0[f].payload.locals[l]
    {
      assert CloneSlot(h0, h, f, l, h[c].payload.locals[l], ReturnSlots(seg));
    }
    assert h[c].payload.locals == h0[f].payload.locals;
  }

  /** A return frame whose slot held a box has one of its own in the copy, an empty one,
      and no other slot that is returned to has that one. */
  lemma CopyOwnsBoxes(h0: Store, seg: seq<KFrame>, h: Store, out: seq<KFrame>, orig: seq<Ref>, copies: seq<Ref>, i: nat, k: nat)
    requires CopyOf(h0, seg, h, out, orig, copies) && i < |seg| && k < |seg| && seg[i].KRet? && seg[k].KRet?
    requires Boxed(h0, seg[i]) && Boxed(h0, seg[k])
    ensures out[i].KRet? && out[k].KRet? && Boxed(h, out[i]) && Boxed(h, out[k])
    ensures var b := h[out[i].frame].payload.locals[seg[i].slot].value; |h0| <= b < |h| && h[b].payload == Scalar(0)
    ensures h[out[i].frame].payload.locals[seg[i].slot] == h[out[k].frame].payload.locals[seg[k].slot]
            <==> seg[i].frame == seg[k].frame && seg[i].slot == seg[k].slot
  {
    hide Apart;
    OwnBoxAt(h0, seg, h, out, orig, copies, i);
    OwnBoxAt(h0, seg, h, out, orig, copies, k);
    CopyKeepsSharing(h0, seg, h, out, orig, copies, i, k);
    BoxesApart(h, copies, |h0|, out[i].frame, seg[i].slot, out[k].frame, seg[k].slot);
  }

  /** The slot the return frame fills holds a box. */
  predicate Boxed(h: Store, kf: KFrame)
    requires kf.KRet?
  {
    kf.frame < |h| && h[kf.frame].payload.Activation? && kf.slot < |h[kf.frame].payload.locals| && h[kf.frame].payload.locals[kf.slot].Some?
  }

  lemma OwnBoxAt(h0: Store, seg: seq<KFrame>, h: Store, out: seq<KFrame>, orig: seq<Ref>, copies: seq<Ref>, i: nat)
    requires CopyOf(h0, seg, h, out, orig, copies) && i < |seg| && seg[i].KRet? && Boxed(h0, seg[i])
    ensures out[i].KRet? && out[i].slot == seg[i].slot && Boxed(h, out[i]) && out[i].frame in copies && FreshIn(h, out[i].frame, seg[i].slot, |h0|)
    ensures var b := h[out[i].frame].payload.locals[seg[i].slot].value; |h0| <= b < |h| && h[b].payload == Scalar(0)
    ensures Apart(h, copies, |h0|)
  {
    hide Apart;
    assert FrameCopied(orig, copies, seg[i], out[i]);
    var a :| 0 <= a < |orig| && orig[a] == seg[i].frame && copies[a] == out[i].frame;
    assert Clone(h0, h, orig[a], copies[a], ReturnSlots(seg));
    assert (seg[i].frame, seg[i].slot) in ReturnSlots(seg);
    assert CloneSlot(h0, h, orig[a], seg[i].slot, h[copies[a]].payload.locals[seg[i].slot], ReturnSlots(seg));
  }

  lemma BoxesApart(h: Store, copies: seq<Ref>, from: nat, c: Ref, l: nat, d: Ref, k: nat)
    requires Apart(h, copies, from) && c in copies && d in copies && FreshIn(h, c, l, from) && FreshIn(h, d, k, from)
    ensures h[c].payload.locals[l] == h[d].payload.locals[k] <==> c == d && l == k
  {
  }

  /** The private activation for a return frame, its slot's box its own. */
  method CopyActivation(m: Machine, kf: KFrame, orig: seq<Ref>, copies: seq<Ref>, ghost h0: Store, ghost boxed: set<(Ref, nat)>)
      returns (c: Ref, orig': seq<Ref>, copies': seq<Ref>)
    requires Inv(m, None) && Extends(h0, m.heap) && MapOk(h0, m.heap, orig, copies, boxed)
    requires kf.KRet? && FrameOk(h0, kf) && Rooted(h0, kf.frame) && multiset(copies) <= m.held
    modifies m
    ensures Inv(m, None) && Extends(h0, m.heap) && MapOk(h0, m.heap, orig', copies', boxed + {(kf.frame, kf.slot)})
    ensures orig <= orig' && copies <= copies' && m.kont == old(m.kont)
    ensures m.held == old(m.held) - multiset(copies) + multiset(copies') + multiset{c}
    ensures |orig'| == |copies'| && Maps(orig', copies', kf.frame, c)
    ensures FrameOk(m.heap, KRet(c, kf.slot, kf.cont))
    ensures copies' == copies || copies' == copies + [c]
  {
    hide Good, Inv, CloneSlot, Extends, Apart;
    var f := kf.frame;
    c, orig', copies' := FrameCopyOf(m, f, orig, copies, h0, boxed);
    ghost var j :| 0 <= j < |orig'| && orig'[j] == f && copies'[j] == c;
    assert Maps(orig', copies', f, c);
    assert Clone(h0, m.heap, orig'[j], copies'[j], boxed);
    if m.heap[c].payload.locals[kf.slot].Some? {
      assert multiset(copies') <= m.held;
      OwnBox(m, f, c, kf.slot, orig', copies', h0, boxed);
    } else {
      NoBox(h0, m.heap, orig', copies', boxed, f, c, kf.slot);
    }
    assert Clone(h0, m.heap, orig'[j], copies'[j], boxed + {(f, kf.slot)});
  }

  /** An empty slot needs no box. */
  lemma NoBox(h0: Store, h: Store, orig: seq<Ref>, copies: seq<Ref>, boxed: set<(Ref, nat)>, f: Ref, c: Ref, slot: nat)
    requires MapOk(h0, h, orig, copies, boxed) && Maps(orig, copies, f, c) && Clone(h0, h, f, c, boxed)
    requires slot < |h[c].payload.locals| && h[c].payload.locals[slot].None?
    ensures MapOk(h0, h, orig, copies, boxed + {(f, slot)})
  {
    hide Apart;
    assert CloneSlot(h0, h, f, slot, h[c].payload.locals[slot], boxed);
    assert f in orig;
    forall j | 0 <= j < |copies|
      ensures Clone(h0, h, orig[j], copies[j], boxed + {(f, slot)})
    {
      assert Clone(h0, h, orig[j], copies[j], boxed);
      forall l | 0 <= l < |h0[orig[j]].payload.locals|
        ensures CloneSlot(h0, h, orig[j], l, h[copies[j]].payload.locals[l], boxed + {(f, slot)})
      {
        assert CloneSlot(h0, h, orig[j], l, h[copies[j]].payload.locals[l], boxed);
      }
    }
  }

  /** Copy one frame onto the stack. */
  method CopyFrame(m: Machine, kf: KFrame, orig: seq<Ref>, copies: seq<Ref>, ghost h0: Store, ghost boxed: set<(Ref, nat)>)
      returns (out: KFrame, orig': seq<Ref>, copies': seq<Ref>)
    requires Inv(m, None) && Extends(h0, m.heap) && MapOk(h0, m.heap, orig, copies, boxed) && |orig| == |copies|
    requires FrameOk(m.heap, kf) && Counted(m.heap, KRefs(kf))
    requires kf.KRet? ==> FrameOk(h0, kf) && Rooted(h0, kf.frame)
    requires multiset(copies) <= m.held && OnStack(m.kont, copies)
    modifies m
    ensures Inv(m, None) && Extends(h0, m.heap) && MapOk(h0, m.heap, orig', copies', boxed + Boxes(kf)) && |orig'| == |copies'|
    ensures orig <= orig' && copies <= copies' && m.kont == old(m.kont) + [out]
    ensures m.held == old(m.held) - multiset(copies) + multiset(copies')
    ensures FrameCopied(orig', copies', kf, out)
    ensures OnStack(m.kont, copies')
  {
    hide Good, Inv, Extends, Clone, MapOk, OnStack, FrameOk, Counted;
    ghost var k1 := m.kont;
    if kf.KRet? {
      out, orig', copies' := CopyReturn(m, kf, orig, copies, h0, boxed);
    } else {
      ghost var h1 := m.heap;
      PushCopy(m, kf);
      out, orig', copies' := kf, orig, copies;
      MapCounts(h0, h1, m.heap, orig, copies, boxed);
      ExtendsCounts(h0, h1, m.heap);
      assert m.held == old(m.held) - multiset(copies) + multiset(copies');
      assert boxed + Boxes(kf) == boxed;
    }
    StaysOnStack(k1, copies, out, copies');
  }

  /** Copy a return frame, with its activation's copy. */
  method CopyReturn(m: Machine, kf: KFrame, orig: seq<Ref>, copies: seq<Ref>, ghost h0: Store, ghost boxed: set<(Ref, nat)>)
      returns (out: KFrame, orig': seq<Ref>, copies': seq<Ref>)
    requires Inv(m, None) && Extends(h0, m.heap) && MapOk(h0, m.heap, orig, copies, boxed) && |orig| == |copies|
    requires kf.KRet? && FrameOk(h0, kf) && Rooted(h0, kf.frame) && multiset(copies) <= m.held
    modifies m
    ensures Inv(m, None) && Extends(h0, m.heap) && MapOk(h0, m.heap, orig', copies', boxed + Boxes(kf)) && |orig'| == |copies'|
    ensures orig <= orig' && copies <= copies' && m.kont == old(m.kont) + [out]
    ensures m.held == old(m.held) - multiset(copies) + multiset(copies')
    ensures FrameCopied(orig', copies', kf, out) && out.KRet?
    ensures copies' == copies || copies' == copies + [out.frame]
  {
    hide Good, Inv, Extends, Clone, MapOk, FrameOk;
    var c;
    c, orig', copies' := CopyActivation(m, kf, orig, copies, h0, boxed);
    out := KRet(c, kf.slot, kf.cont);
    Push(m, out, None);
    assert m.held == old(m.held) - multiset(copies) + multiset(copies');
  }

  lemma FrameInSlice(h0: Store, h: Store, m: Machine, s: Ref, seg: seq<KFrame>, i: nat)
    requires Inv(m, None) && h == m.heap && Extends(h0, h) && s < |h0| && h0[s].payload == Slice(Some(seg), true)
    requires i < |seg|
    ensures FrameOk(h, seg[i]) && Counted(h, KRefs(seg[i]))
  {
    hide Exact, Intact, SegRefs, SegBounds, KRefs;
    assert PayloadOk(h, h[s].payload);
    PayloadCounted(h, m.kont, m.held, None, s);
    SegHas(seg, i);
    forall x | x in KRefs(seg[i])
      ensures x < |h| && h[x].rc > 0
    {
      assert KRefs(seg[i])[x] <= SegRefs(seg)[x];
      assert x in Refs(s, h[s].payload);
    }
  }

  lemma CopiedStays(orig: seq<Ref>, copies: seq<Ref>, orig': seq<Ref>, copies': seq<Ref>, kf: KFrame, kf': KFrame)
    requires |orig| == |copies| && |orig'| == |copies'| && orig <= orig' && copies <= copies'
    requires FrameCopied(orig, copies, kf, kf')
    ensures FrameCopied(orig', copies', kf, kf')
  {
    if kf.KRet? {
      var j :| 0 <= j < |orig| && orig[j] == kf.frame && copies[j] == kf'.frame;
      assert orig'[j] == kf.frame && copies'[j] == kf'.frame;
    }
  }

  lemma AllCopiedStay(orig: seq<Ref>, copies: seq<Ref>, orig': seq<Ref>, copies': seq<Ref>, seg: seq<KFrame>, out: seq<KFrame>)
    requires |orig| == |copies| && |orig'| == |copies'| && orig <= orig' && copies <= copies' && |out| == |seg|
    requires forall k :: 0 <= k < |seg| ==> FrameCopied(orig, copies, seg[k], out[k])
    ensures forall k :: 0 <= k < |seg| ==> FrameCopied(orig', copies', seg[k], out[k])
  {
    hide FrameCopied;
    forall k | 0 <= k < |seg|
      ensures FrameCopied(orig', copies', seg[k], out[k])
    {
      CopiedStays(orig, copies, orig', copies', seg[k], out[k]);
    }
  }

  /** Copy the frames of slice `s` onto the stack; the frame map still holds a
      reference on each copied activation. */
  method CopyFrames(m: Machine, s: Ref, seg: seq<KFrame>, ghost h0: Store)
      returns (out: seq<KFrame>, orig: seq<Ref>, copies: seq<Ref>)
    requires Inv(m, None) && h0 == m.heap && s < |h0| && h0[s].payload == Slice(Some(seg), true)
    modifies m
    ensures Inv(m, None) && Extends(h0, m.heap) && m.kont == old(m.kont) + out
    ensures m.held == old(m.held) + multiset(copies)
    ensures CopyOf(h0, seg, m.heap, out, orig, copies)
    ensures OnStack(m.kont, copies)
  {
    hide Good, Inv, Clone, Extends, FrameCopied, MapOk, Kinded, SegRefs, ReturnSlots, Boxes, Rooted, OnStack, FrameOk, Counted, KRefs;
    KindsOf(m);
    out, orig, copies := [], [], [];
    StartCopy(h0, m.kont, seg);
    for i := 0 to |seg|
      invariant Inv(m, None) && Extends(h0, m.heap) && m.kont == old(m.kont) + out
      invariant m.held == old(m.held) + multiset(copies)
      invariant |orig| == |copies| && MapOk(h0, m.heap, orig, copies, ReturnSlots(seg[..i])) && |out| == i
      invariant forall k :: 0 <= k < i ==> FrameCopied(orig, copies, seg[k], out[k])
      invariant OnStack(m.kont, copies) && multiset(copies) <= m.held
    {
      ghost var orig0, copies0 := orig, copies;
      FrameInSlice(h0, m.heap, m, s, seg, i);
      var kf := seg[i];
      if kf.KRet? {
        SegFrameOk(h0, m, s, seg, i);
      }
      var kf';
      kf', orig, copies := CopyFrame(m, kf, orig, copies, h0, ReturnSlots(seg[..i]));
      ReturnSlotsMore(seg, i);
      AllCopiedStay(orig0, copies0, orig, copies, seg[..i], out);
      out := out + [kf'];
      assert m.held == old(m.held) + multiset(copies);
    }
    assert seg[..|seg|] == seg;
  }

  /** Every copied activation is on the stack. */
  ghost predicate OnStack(kont: seq<KFrame>, copies: seq<Ref>) {
    forall j :: 0 <= j < |copies| ==> copies[j] in SegRefs(kont)
  }

  lemma StaysOnStack(kont: seq<KFrame>, copies: seq<Ref>, kf: KFrame, copies': seq<Ref>)
    requires OnStack(kont, copies)
    requires copies' == copies || (kf.KRet? && copies' == copies + [kf.frame])
    ensures OnStack(kont + [kf], copies')
  {
    hide SegRefs;
    PushRefs(kont, kf);
    forall j | 0 <= j < |copies'|
      ensures copies'[j] in SegRefs(kont + [kf])
    {
      if j < |copies| {
        assert copies[j] in SegRefs(kont);
      } else {
        assert copies'[j] in KRefs(kf);
      }
    }
  }

  lemma KindsOf(m: Machine)
    requires Inv(m, None)
    ensures Kinded(m.heap)
  {
    hide Exact, SegOk, Intact, Kinded;
  }

  lemma StartCopy(h0: Store, kont: seq<KFrame>, seg: seq<KFrame>)
    ensures Extends(h0, h0) && MapOk(h0, h0, [], [], ReturnSlots(seg[..0])) && OnStack(kont, [])
  {
  }

  /** The frames of the slice were all right before the copy began. */
  lemma SegFrameOk(h0: Store, m: Machine, s: Ref, seg: seq<KFrame>, i: nat)
    requires Inv(m, None) && Extends(h0, m.heap) && s < |h0| && h0[s].payload == Slice(Some(seg), true)
    requires i < |seg| && seg[i].KRet? && Kinded(h0)
    ensures FrameOk(h0, seg[i]) && Rooted(h0, seg[i].frame)
  {
    hide Exact, Intact, SegRefs, SegBounds;
    assert PayloadOk(h0, h0[s].payload);
    assert FrameOk(h0, seg[i]);
    var f := seg[i].frame;
    assert PayloadOk(h0, h0[f].payload);
    forall l | 0 <= l < |h0[f].payload.locals| && h0[f].payload.locals[l].Some?
      ensures h0[f].payload.locals[l].value < |h0|
    {
      assert SlotOk(h0, h0[f].payload.locals[l], h0[f].payload.tokens[l]);
    }
  }

  /** Drop the map's own references.  Every copy is on the stack, so none dies. */
  method DropMap(m: Machine, copies: seq<Ref>)
    requires Inv(m, None) && multiset(copies) <= m.held && OnStack(m.kont, copies)
    modifies m
    ensures Inv(m, None) && m.kont == old(m.kont) && m.held == old(m.held) - multiset(copies)
    ensures SameButCounts(old(m.heap), m.heap)
  {
    hide Good, Inv, SegRefs, Frees;
    assert copies[..0] == [];
    for i := 0 to |copies|
      invariant Inv(m, None) && m.kont == old(m.kont) && m.held == old(m.held) - multiset(copies[..i])
      invariant SameButCounts(old(m.heap), m.heap)
    {
      TakeOne(old(m.held), copies, i);
      ghost var h1, held1 := m.heap, m.held;
      GoodOf(m);
      ghost var log := Drop(m, copies[i], None);
      GoodOf(m);
      NotOnlyHeld(h1, m.heap, m.kont, held1, log, copies[i]);
    }
    assert copies[..|copies|] == copies;
  }

  /** Dropping a held reference on something the stack also names frees nothing. */
  lemma NotOnlyHeld(h: Store, h': Store, kont: seq<KFrame>, held: multiset<Ref>, log: seq<Ref>, x: Ref)
    requires Good(h, kont, held, None) && held[x] > 0 && x in SegRefs(kont)
    requires Frees(h, h', log) && Good(h', kont, held - multiset{x}, None)
    ensures SameButCounts(h, h')
  {
    hide AllRefs, AllBounds, SegRefs, SegBounds, Kinded, SegOk, Intact;
    var roots := SegRefs(kont) + held;
    assert SegRefs(kont) + (held - multiset{x}) == roots - multiset{x};
    RootAlive(h, roots, SegBounds(kont) + multiset{}, [], x);
    assert h[x].rc == (AllRefs(h) + roots)[x];
    NotTheLast(h, h', roots, SegBounds(kont) + multiset{}, log, x);
  }

  /** Copy the frames of slice `s` onto the stack. */
  method SegmentCopy(m: Machine, s: Ref, seg: seq<KFrame>)
      returns (out: seq<KFrame>, ghost orig: seq<Ref>, ghost copies: seq<Ref>)
    requires Inv(m, None) && s < |m.heap| && m.heap[s].payload == Slice(Some(seg), true)
    modifies m
    ensures Inv(m, None) && Extends(old(m.heap), m.heap) && m.kont == old(m.kont) + out && m.held == old(m.held)
    ensures CopyOf(old(m.heap), seg, m.heap, out, orig, copies)
  {
    hide Good, Inv, Extends, FrameCopied, MapOk, OnStack;
    var a, b;
    out, a, b := CopyFrames(m, s, seg, m.heap);
    orig, copies := a, b;
    ghost var h1 := m.heap;
    DropMap(m, b);
    MapCounts(old(m.heap), h1, m.heap, a, b, ReturnSlots(seg));
    ExtendsCounts(old(m.heap), h1, m.heap);
    assert m.held == old(m.held);
  }
}
