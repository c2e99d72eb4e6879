/** Applying closures, effect operations and resumptions (`do_apply`). */
module Applying {
  import opened Common
  import opened Objects
  import opened Kinds
  import opened Runtime
  import opened Continuations
  import opened Slots
  import opened Delivery
  import opened Copying

  /** Drop a held value, keeping others that are held. */
  method DropKeep(m: Machine, x: Ref, ghost keep: seq<Ref>)
    requires Inv(m, None) && multiset{x} + multiset(keep) <= m.held
    requires forall j :: 0 <= j < |keep| ==> keep[j] < |m.heap|
    modifies m
    ensures Inv(m, None) && m.held == old(m.held) - multiset{x} && m.kont == old(m.kont)
    ensures forall j :: 0 <= j < |keep| ==>
              keep[j] < |m.heap| && m.heap[keep[j]].payload == old(m.heap)[keep[j]].payload
    ensures Shed(old(m.heap), m.heap) && SegsKept(old(m.heap), m.heap)
  {
    hide Good, Frees, Shed, SegsKept;
    Peel(m.held, x, multiset(keep));
    ghost var log := Drop(m, x, None);
    FreesShed(old(m.heap), m.heap, log);
    AllHeld(keep, m.held);
    forall j | 0 <= j < |keep|
      ensures keep[j] < |m.heap| && m.heap[keep[j]].payload == old(m.heap)[keep[j]].payload
    {
      HeldStays(old(m.heap), m.heap, log, m.kont, m.held, keep[j]);
    }
  }

  // ---- operations ---------------------------------------------------------

  /** A fresh activation of the closure `clo` on `args`, with the activation `fr` that
      control leaves released. */
  method EnterWith(m: Machine, fr: Option<Ref>, clo: Ref, args: seq<Ref>, layouts: seq<seq<bool>>) returns (r: Next)
    requires Inv(m, None) && clo < |m.heap| && ValueAt(m.heap, clo) && m.heap[clo].rc > 0
    requires Held1(fr) <= m.held && forall j :: 0 <= j < |args| ==> args[j] in m.held && ValueAt(m.heap, args[j])
    modifies m
    ensures r.Fault? <==> !CanEnter(old(m.heap), clo, |args|, layouts)
    ensures !r.Fault? ==>
              && Inv(m, None) && m.kont == old(m.kont) && r.Enter?
              && Activated(m.heap, r, clo, CodeOf(old(m.heap)[clo].payload), args, layouts)
              && SegsKept(old(m.heap), m.heap) && Outlives(old(m.heap), m.heap)
              && m.held == old(m.held) - Held1(fr) + multiset{r.frame}
  {
    hide Good, Inv, RowOf, ValueAt, SegsKept, Shed, Outlives;
    ghost var h0 := m.heap;
    forall j | 0 <= j < |args|
      ensures ValueAt(m.heap, args[j]) && args[j] < |m.heap| && m.heap[args[j]].rc > 0
    {
      InHand(m, args[j]);
    }
    var nf, code, ok := EnterClo(m, clo, args, layouts);
    if !ok {
      return Fault;
    }
    GrownSegs(h0, m.heap);
    GrownOutlives(h0, m.heap);
    LeaveFrame(m, fr, nf, h0);
    r := Enter(nf, code);
  }

  /** Release the activation control leaves, if any; `nf` stays as it is. */
  method LeaveFrame(m: Machine, fr: Option<Ref>, nf: Ref, ghost h0: Store)
    requires Inv(m, None) && Held1(fr) + multiset{nf} <= m.held && nf < |m.heap|
    requires SegsKept(h0, m.heap) && Outlives(h0, m.heap)
    modifies m
    ensures Inv(m, None) && m.kont == old(m.kont) && m.held == old(m.held) - Held1(fr)
    ensures nf < |m.heap| && m.heap[nf].payload == old(m.heap)[nf].payload
    ensures SegsKept(h0, m.heap) && Outlives(h0, m.heap)
  {
    hide Good, Inv, SegsKept, Shed, Outlives;
    ghost var h1 := m.heap;
    if fr.Some? {
      ghost var keep := [nf];
      assert multiset(keep) == multiset{nf};
      DropKeep(m, fr.value, keep);
      assert m.heap[keep[0]].payload == h1[nf].payload;
      SegsTrans(h0, h1, m.heap);
      ShedOutlives(h1, m.heap);
      OutlivesTrans(h0, h1, m.heap);
    }
  }

  /** A clause of a prompt on the stack is a counted value. */
  lemma ClauseOnStack(m: Machine, p: nat, j: nat)
    requires Inv(m, None) && p < |m.kont| && m.kont[p].KPrompt? && j < |m.kont[p].clauses|
    ensures var c := m.kont[p].clauses[j].fun; ValueAt(m.heap, c) && c < |m.heap| && m.heap[c].rc > 0
  {
    hide Exact, Kinded, Intact, SegRefs, SegBounds;
    var c := m.kont[p].clauses[j].fun;
    SegHas(m.kont, p);
    FunsHas(m.kont[p].clauses, j);
    assert FrameOk(m.heap, m.kont[p]);
    assert KRefs(m.kont[p])[c] > 0;
    assert (SegRefs(m.kont) + m.held)[c] > 0;
    RootAlive(m.heap, SegRefs(m.kont) + m.held, SegBounds(m.kont) + multiset{}, [], c);
  }

  /** Capturing adds objects and changes none. */
  lemma CaptureKeeps(h: Store, h': Store, x: Ref)
    requires |h| <= |h'| && h'[..|h|] == h && ValueAt(h, x) && h[x].rc > 0
    ensures ValueAt(h', x) && x < |h'| && h'[x].rc > 0 && h'[x].payload == h[x].payload
  {
    assert h'[..|h|][x] == h'[x];
  }

  lemma SpareToo(held: multiset<Ref>, fr: multiset<Ref>, arg: Ref, k: Ref)
    requires fr + multiset{arg} <= held
    ensures fr <= held + multiset{k} && held + multiset{k} - fr == held - fr + multiset{k}
    ensures arg in held + multiset{k} && k in held + multiset{k}
    ensures k in held - fr + multiset{k}
  {
    assert forall x :: (fr + multiset{arg})[x] <= held[x];
  }

  lemma CaptureEnters(h: Store, h': Store, x: Ref, n: nat, layouts: seq<seq<bool>>)
    requires |h| <= |h'| && h'[..|h|] == h && x < |h|
    ensures CanEnter(h', x, n, layouts) == CanEnter(h, x, n, layouts)
  {
    assert h'[..|h|][x] == h'[x];
  }

  /** The frames of `k` from `p` up are in the fresh slice `s`, which the resumption
      `res` names and whose boundary lies in their place; no other frames have been
      captured. */
  ghost predicate SliceTaken(h: Store, k: seq<KFrame>, p: nat, h': Store, k': seq<KFrame>, res: Ref) {
    && p <= |k| && |h| < |h'| && res < |h'|
    && h'[|h|].payload == Slice(Some(k[p..]), false) && h'[res].payload == Resumption(|h|)
    && k' == k[..p] + [KAfterClause(|h|)]
    && forall i: Ref :: i < |h'| && i != |h| && h'[i].payload.Slice? && h'[i].payload.seg.Some? ==>
         i < |h| && h[i].payload.Slice? && h[i].payload.seg == h'[i].payload.seg
  }

  /** Perform under a clause that mentions its continuation: the frames from the
      prompt `p` up become a slice, and the clause runs below the prompt on the
      argument and the slice's resumption, above the slice's boundary. */
  method PerformCaptured(m: Machine, fr: Option<Ref>, p: nat, j: nat, arg: Ref, layouts: seq<seq<bool>>) returns (r: Next, k: Ref)
    requires Inv(m, None) && p < |m.kont| && m.kont[p].KPrompt? && j < |m.kont[p].clauses|
    requires Held1(fr) + multiset{arg} <= m.held && ValueAt(m.heap, arg)
    modifies m
    ensures r.Fault? <==> !CanEnter(old(m.heap), old(m.kont)[p].clauses[j].fun, 2, layouts)
    ensures !Stops(r) ==>
              && Inv(m, None) && r.Enter? && m.held == old(m.held) - Held1(fr) + multiset{r.frame}
              && SliceTaken(old(m.heap), old(m.kont), p, m.heap, m.kont, k)
              && ClauseOn(old(m.heap), old(m.kont)[p].clauses[j].fun, m.heap, r, arg, k, layouts)
    ensures !r.SelfThunk?
  {
    hide Good, Inv, RowOf, ValueAt, Held1, Activated, SegsKept, Outlives, CanEnter, SliceTaken;
    var clause := m.kont[p].clauses[j].fun;
    ClauseOnStack(m, p, j);
    ghost var h0, was := m.heap, m.held;
    assert arg in Held1(fr) + multiset{arg};
    InHand(m, arg);
    k := Capture(m, p);
    SpareToo(was, Held1(fr), arg, k);
    assert m.heap[..|h0|] == h0;
    CaptureKeeps(h0, m.heap, clause);
    CaptureEnters(h0, m.heap, clause, 2, layouts);
    CaptureKeeps(h0, m.heap, arg);
    assert ValueAt(m.heap, k) by { FreshValue(m.heap, k); }
    ghost var h1 := m.heap;
    r := EnterWith(m, fr, clause, [arg, k], layouts);
    if !r.Fault? {
      ghost var h2 := m.heap;
      CaptureThere(m, h0, old(m.kont), p, h1, k);
      DropSpare(m, r, clause, CodeOf(h0[clause].payload), arg, k, layouts, was - Held1(fr));
      SegsTrans(h1, h2, m.heap);
      CapturedSlice(m, h0, old(m.kont), p, h1, k);
    }
  }

  /** Control is in the clause, on the operation's argument and the value standing for
      its continuation. */
  ghost predicate ClauseOn(h: Store, clause: Ref, h': Store, r: Next, arg: Ref, kval: Ref, layouts: seq<seq<bool>>) {
    CanEnter(h, clause, 2, layouts) && Activated(h', r, clause, CodeOf(h[clause].payload), [arg, kval], layouts)
  }

  lemma ShedOutlives(h: Store, h': Store)
    requires Shed(h, h')
    ensures Outlives(h, h')
  {
  }

  /** The resumption in hand and the slice under the boundary are as captured. */
  lemma CaptureThere(m: Machine, h0: Store, k0: seq<KFrame>, p: nat, h1: Store, k: Ref)
    requires Inv(m, None) && p <= |k0| && m.kont == k0[..p] + [KAfterClause(|h0|)] && k == |h0| + 1
    requires h1 == h0 + [Obj(2, 1, Slice(Some(k0[p..]), false)), Obj(1, 0, Resumption(|h0|))]
    requires Outlives(h1, m.heap) && k in m.held
    ensures k < |m.heap| && m.heap[k].payload == Resumption(|h0|)
    ensures m.heap[|h0|].payload == Slice(Some(k0[p..]), false)
  {
    hide Inv, Outlives;
    AliveSame(m, h1, k);
    SegHas(m.kont, |m.kont| - 1);
    assert KRefs(m.kont[|m.kont| - 1])[|h0|] > 0;
    AliveSame(m, h1, |h0|);
  }

  /** The captured slice is still there, through its boundary. */
  lemma CapturedSlice(m: Machine, h0: Store, k0: seq<KFrame>, p: nat, h1: Store, k: Ref)
    requires Inv(m, None) && p <= |k0| && m.kont == k0[..p] + [KAfterClause(|h0|)] && k == |h0| + 1
    requires h1 == h0 + [Obj(2, 1, Slice(Some(k0[p..]), false)), Obj(1, 0, Resumption(|h0|))]
    requires SegsKept(h1, m.heap) && k < |m.heap| && m.heap[k].payload == Resumption(|h0|)
    requires |h0| < |m.heap| && m.heap[|h0|].payload == h1[|h0|].payload
    ensures SliceTaken(h0, k0, p, m.heap, m.kont, k)
  {
    hide Good;
  }

  /** The temporary reference on the continuation goes; the clause keeps its own, and
      the slice stays. */
  method DropSpare(m: Machine, r: Next, ghost clause: Ref, ghost code: nat, ghost arg: Ref, k: Ref, ghost layouts: seq<seq<bool>>, ghost held: multiset<Ref>)
    requires Inv(m, None) && r.Enter? && Activated(m.heap, r, clause, code, [arg, k], layouts)
    requires m.held == held + multiset{k} + multiset{r.frame}
    requires |m.kont| > 0 && m.kont[|m.kont| - 1].KAfterClause? && k < |m.heap|
    modifies m
    ensures Inv(m, None) && m.kont == old(m.kont) && Activated(m.heap, r, clause, code, [arg, k], layouts)
    ensures m.held == held + multiset{r.frame} && SegsKept(old(m.heap), m.heap)
    ensures var s := m.kont[|m.kont| - 1].res;
            s < |m.heap| && s < |old(m.heap)| && m.heap[s].payload == old(m.heap)[s].payload
    ensures k < |m.heap| && m.heap[k].payload == old(m.heap)[k].payload
  {
    hide Good, Inv, RowOf, SegsKept;
    var s := m.kont[|m.kont| - 1].res;
    ghost var h := m.heap;
    ghost var log := Drop(m, k, None);
    FreesShed(h, m.heap, log);
    assert m.held == held + multiset{r.frame};
    assert r.frame in m.held;
    Survives(h, m, log, r.frame);
    StillActivated(h, m.heap, r, clause, code, [arg, k], layouts);
    BoundaryStays(h, m, log);
    ArgumentStays(h, m, log, r, clause, code, [arg, k], layouts, 1);
  }

  lemma BoundaryStays(h: Store, m: Machine, log: seq<Ref>)
    requires Inv(m, None) && Frees(h, m.heap, log) && |m.kont| > 0 && m.kont[|m.kont| - 1].KAfterClause?
    ensures var s := m.kont[|m.kont| - 1].res; s < |m.heap| && s < |h| && m.heap[s].payload == h[s].payload
  {
    hide Good, Frees, SegRefs;
    var s := m.kont[|m.kont| - 1].res;
    SegHas(m.kont, |m.kont| - 1);
    assert KRefs(m.kont[|m.kont| - 1])[s] == 1;
    HeldStays(h, m.heap, log, m.kont, m.held, s);
  }

  /** What a held activation holds is not freed. */
  lemma ArgumentStays(h: Store, m: Machine, log: seq<Ref>, r: Next, clo: Ref, code: nat, args: seq<Ref>, layouts: seq<seq<bool>>, i: nat)
    requires Inv(m, None) && Frees(h, m.heap, log) && Activated(m.heap, r, clo, code, args, layouts) && i < |args|
    ensures args[i] < |h| == |m.heap| && m.heap[args[i]].payload == h[args[i]].payload
  {
    hide Good, Frees;
    BoxInSlot(m.heap, m.kont, m.held, r.frame, i);
    NotFreedOf(h, m.heap, log, args[i]);
  }

  lemma NotFreedOf(h: Store, h': Store, log: seq<Ref>, x: Ref)
    requires Frees(h, h', log) && ValueAt(h', x)
    ensures x < |h| == |h'| && h'[x].payload == h[x].payload
  {
  }

  lemma FreshValue(h: Store, k: Ref)
    requires k < |h| && h[k].payload.Resumption?
    ensures ValueAt(h, k)
  {
  }

  /** Keep a reference on the clause while the frames from `p` up are dropped. */
  method AbandonKeeping(m: Machine, p: nat, clause: Ref, ghost arg: Ref, ghost unit: Ref)
    requires Inv(m, None) && p <= |m.kont| && clause < |m.heap| && m.heap[clause].rc > 0
    requires ValueAt(m.heap, clause) && ValueAt(m.heap, arg) && ValueAt(m.heap, unit) && arg in m.held && unit in m.held
    modifies m
    ensures Inv(m, None) && m.held == old(m.held) + multiset{clause}
    ensures var cs := Defers(old(m.kont)[p..]);
            m.kont == old(m.kont)[..p] + (if |cs| == 0 then [] else [KCleanups(cs)])
    ensures ValueAt(m.heap, clause) && ValueAt(m.heap, arg) && ValueAt(m.heap, unit)
    ensures clause < |m.heap| && m.heap[clause].rc > 0 && m.heap[clause].payload == old(m.heap)[clause].payload
    ensures SegsKept(old(m.heap), m.heap)
  {
    hide Good, Inv, ValueAt, Frees, Defers, SegsKept, Shed;
    ghost var h0 := m.heap;
    Retain(m, clause, None);
    SameValue(h0, m.heap, clause);
    SameValue(h0, m.heap, arg);
    SameValue(h0, m.heap, unit);
    ghost var h1 := m.heap;
    ghost var log := Abandon(m, p);
    CountsShed(h0, h1);
    FreesShed(h1, m.heap, log);
    SegsTrans(h0, h1, m.heap);
    Survives(h1, m, log, clause);
    Survivor(h1, m, log, clause);
    Survivor(h1, m, log, arg);
    Survivor(h1, m, log, unit);
    InHand(m, clause);
  }

  /** Perform under a clause that cannot resume: the frames from the prompt `p` up
      are dropped at once, and only their cleanups are kept for after the clause. */
  method PerformNever(m: Machine, fr: Option<Ref>, p: nat, j: nat, arg: Ref, unit: Ref, layouts: seq<seq<bool>>) returns (r: Next)
    requires Inv(m, None) && p < |m.kont| && m.kont[p].KPrompt? && j < |m.kont[p].clauses|
    requires Held1(fr) + multiset{arg, unit} <= m.held && ValueAt(m.heap, arg) && ValueAt(m.heap, unit)
    modifies m
    ensures r.Fault? <==> !CanEnter(old(m.heap), old(m.kont)[p].clauses[j].fun, 2, layouts)
    ensures !Stops(r) ==>
              && Inv(m, None) && m.kont == Uncaptured(old(m.kont), p)
              && r.Enter? && m.held == old(m.held) - Held1(fr) + multiset{r.frame}
              && ClauseOn(old(m.heap), old(m.kont)[p].clauses[j].fun, m.heap, r, arg, unit, layouts)
              && SegsKept(old(m.heap), m.heap)
    ensures !r.SelfThunk?
  {
    hide Good, Inv, RowOf, ValueAt, Held1, Defers, SegsKept, Outlives, Activated;
    var clause := m.kont[p].clauses[j].fun;
    ClauseOnStack(m, p, j);
    ghost var h, h0 := m.held, m.heap;
    assert arg in h && unit in h;
    AbandonKeeping(m, p, clause, arg, unit);
    assert Held1(fr) + multiset{arg, unit} <= m.held;
    ghost var h1 := m.heap;
    r := EnterWith(m, fr, clause, [arg, unit], layouts);
    if !r.Fault? {
      assert m.held == h + multiset{clause} - Held1(fr) + multiset{r.frame};
      assert Held1(fr) <= h;
      ghost var h2 := m.heap;
      DropClause(m, r, clause, CodeOf(h0[clause].payload), [arg, unit], layouts, h - Held1(fr));
      SegsTrans(h0, h1, h2);
      SegsTrans(h0, h2, m.heap);
    }
  }

  /** The stack once the frames from `p` up are dropped: their cleanups stay, if any. */
  function Uncaptured(k: seq<KFrame>, p: nat): seq<KFrame>
    requires p <= |k|
  {
    var cs := Defers(k[p..]);
    k[..p] + (if |cs| == 0 then [] else [KCleanups(cs)])
  }

  method DropClause(m: Machine, r: Next, clause: Ref, ghost code: nat, ghost args: seq<Ref>, ghost layouts: seq<seq<bool>>, ghost held: multiset<Ref>)
    requires Inv(m, None) && r.Enter? && Activated(m.heap, r, clause, code, args, layouts)
    requires m.held == held + multiset{clause} + multiset{r.frame}
    modifies m
    ensures Inv(m, None) && m.kont == old(m.kont) && Activated(m.heap, r, clause, code, args, layouts)
    ensures m.held == held + multiset{r.frame} && SegsKept(old(m.heap), m.heap)
  {
    hide Good, Inv, RowOf, Frees, Shed, SegsKept;
    ghost var h := m.heap;
    ghost var log := Drop(m, clause, None);
    FreesShed(h, m.heap, log);
    assert m.held == held + multiset{r.frame};
    assert r.frame in m.held;
    Survives(h, m, log, r.frame);
    StillActivated(h, m.heap, r, clause, code, args, layouts);
  }

  lemma SameValue(h: Store, h': Store, x: Ref)
    requires ValueAt(h, x) && |h| == |h'| && forall i :: 0 <= i < |h| ==> h'[i].payload == h[i].payload
    ensures ValueAt(h', x)
  {
  }

  /** Clause `j` of the prompt `p` is the first to handle the operation, from the top of
      the stack down to `base`. */
  ghost predicate Nearest(k: seq<KFrame>, base: nat, effect: Option<nat>, op: nat, p: nat, j: nat) {
    && base <= p < |k| && k[p].KPrompt? && j < |k[p].clauses| && Handles(k[p].clauses[j], effect, op)
    && (forall i :: 0 <= i < j ==> !Handles(k[p].clauses[i], effect, op))
    && (forall q :: p < q < |k| ==> NoClause(k[q], effect, op))
  }

  /** The operation reached its handler: the clause runs below the prompt, on the
      captured frames' resumption, or on unit when it cannot resume. */
  ghost predicate Performed(h: Store, k: seq<KFrame>, base: nat, effect: Option<nat>, op: nat, arg: Ref, unit: Ref,
                            h': Store, k': seq<KFrame>, r: Next, layouts: seq<seq<bool>>, p: nat, j: nat, kval: Ref) {
    && Nearest(k, base, effect, op, p, j)
    && ClauseOn(h, k[p].clauses[j].fun, h', r, arg, kval, layouts)
    && (if k[p].clauses[j].resume == Never then kval == unit && k' == Uncaptured(k, p) && SegsKept(h, h')
        else SliceTaken(h, k, p, h', k', kval))
  }

  /** No clause down to `base` handles the operation, or the nearest is no closure with
      room for two arguments. */
  ghost predicate Unhandled(h: Store, k: seq<KFrame>, base: nat, effect: Option<nat>, op: nat, layouts: seq<seq<bool>>, p: nat, j: nat) {
    || (forall q :: base <= q < |k| ==> NoClause(k[q], effect, op))
    || (Nearest(k, base, effect, op, p, j) && !CanEnter(h, k[p].clauses[j].fun, 2, layouts))
  }

  /** Perform: find the handler, and run its clause below the prompt.  No handler, or
      one that is no closure with room for two, is a fault. */
  method Perform(m: Machine, fr: Option<Ref>, effect: Option<nat>, op: nat, arg: Ref, unit: Ref, base: nat, layouts: seq<seq<bool>>)
      returns (r: Next, ghost p: nat, ghost j: nat, ghost kval: Ref)
    requires Inv(m, None) && base <= |m.kont|
    requires Held1(fr) + multiset{arg, unit} <= m.held && ValueAt(m.heap, arg) && ValueAt(m.heap, unit)
    modifies m
    ensures !Stops(r) ==>
              && Inv(m, None) && SameBelow(old(m.kont), m.kont, base) && r.Enter?
              && m.held == old(m.held) - Held1(fr) + multiset{r.frame}
              && Performed(old(m.heap), old(m.kont), base, effect, op, arg, unit, m.heap, m.kont, r, layouts, p, j, kval)
    ensures r.Fault? ==> Unhandled(old(m.heap), old(m.kont), base, effect, op, layouts, p, j)
    ensures !r.SelfThunk?
  {
    hide Good, Inv, ValueAt, Held1, Defers, RowOf, ClauseOn, CanEnter, SegsKept;
    var found, at, cl;
    at, cl, found := FindClause(m.kont, base, effect, op);
    p, j, kval := at, cl, unit;
    if !found {
      return Fault, p, j, kval;
    }
    assert Nearest(m.kont, base, effect, op, p, j);
    if m.kont[at].clauses[cl].resume == Never {
      r := PerformNever(m, fr, at, cl, arg, unit, layouts);
    } else {
      assert multiset{arg} <= multiset{arg, unit};
      assert Held1(fr) + multiset{arg} <= m.held;
      var k;
      r, k := PerformCaptured(m, fr, at, cl, arg, layouts);
      kval := k;
    }
  }

  // ---- resumptions --------------------------------------------------------

  lemma ResumptionSlice(m: Machine, fn: Ref)
    requires Inv(m, None) && fn < |m.heap| && m.heap[fn].payload.Resumption?
    ensures var s := m.heap[fn].payload.slice;
            s < |m.heap| && m.heap[s].payload.Slice? && m.heap[s].payload.seg.Some?
  {
    hide Exact, Kinded, SegOk, SegRefs, SegBounds;
  }

  /** Note that the slice has been resumed. */
  method MarkUsed(m: Machine, s: Ref)
    requires Inv(m, None) && s < |m.heap| && m.heap[s].payload.Slice? && m.heap[s].payload.seg.Some?
    modifies m
    ensures Inv(m, None) && m.kont == old(m.kont) && m.held == old(m.held)
    ensures m.heap == old(m.heap)[s := old(m.heap)[s].(payload := old(m.heap)[s].payload.(used := true))]
  {
    hide Good;
    MarkUsedGood(m.heap, m.kont, m.held, s);
    m.heap := m.heap[s := m.heap[s].(payload := m.heap[s].payload.(used := true))];
  }

  /** The heap once slice `s` is marked as resumed. */
  function Marked(h: Store, s: Ref): Store
    requires s < |h| && h[s].payload.Slice?
  {
    h[s := h[s].(payload := h[s].payload.(used := true))]
  }

  /** No captured frames but those there were, and those of `s` no more. */
  ghost predicate SegMoved(h: Store, h': Store, s: Ref) {
    forall i: Ref :: i < |h'| && h'[i].payload.Slice? && h'[i].payload.seg.Some? ==>
      i != s && i < |h| && h[i].payload.Slice? && h[i].payload.seg == h'[i].payload.seg
  }

  /** What a resume puts on the stack: the frames of its slice, moved out when the call
      alone holds the only resumption that can ever resume them, and a private copy
      otherwise. */
  datatype Splicing = Splicing(moved: bool, out: seq<KFrame>, mid: Store, orig: seq<Ref>, copies: seq<Ref>)

  ghost predicate Spliced(h: Store, fn: Ref, owned: bool, w: Splicing) {
    && fn < |h| && h[fn].payload.Resumption?
    && var s := h[fn].payload.slice;
       && s < |h| && h[s].payload.Slice? && h[s].payload.seg.Some?
       && (w.moved <==> owned && h[fn].rc == 1 && h[s].rc == h[s].nbound + 1)
       && (w.moved ==> w.out == h[s].payload.seg.value && SegMoved(h, w.mid, s))
       && (!w.moved ==> Extends(Marked(h, s), w.mid) && CopyOf(Marked(h, s), h[s].payload.seg.value, w.mid, w.out, w.orig, w.copies))
  }

  /** Splice the slice of the resumption `fn` back on the stack.  No resumption names a
      slice whose frames were moved out, so there is always something to splice. */
  method Splice(m: Machine, fn: Ref, owned: bool, ghost keep: seq<Ref>) returns (moved: bool, ghost w: Splicing)
    requires Inv(m, None) && multiset{fn} + multiset(keep) <= m.held && fn < |m.heap| && m.heap[fn].payload.Resumption?
    requires forall j :: 0 <= j < |keep| ==> ValueAt(m.heap, keep[j])
    modifies m
    ensures Inv(m, None) && m.kont == old(m.kont) + w.out
    ensures Spliced(old(m.heap), fn, owned, w) && w.moved == moved && w.mid == m.heap
    ensures m.held == if moved then old(m.held) - multiset{fn} else old(m.held)
    ensures forall j :: 0 <= j < |keep| ==> ValueAt(m.heap, keep[j])
  {
    hide Good, Inv, Frees, CopyOf, ValueAt, Extends;
    ResumptionSlice(m, fn);
    var s := m.heap[fn].payload.slice;
    var seg := m.heap[s].payload.seg.value;
    ghost var h0 := m.heap;
    MarkUsed(m, s);
    ghost var h1 := m.heap;
    MarkedValues(h0, h1, s, keep);
    moved := owned && m.heap[fn].rc == 1 && m.heap[s].rc == m.heap[s].nbound + 1;
    assert h1[fn].rc == h0[fn].rc && h1[s].rc == h0[s].rc && h1[s].nbound == h0[s].nbound;
    if moved {
      ghost var log := Move(m, fn, s);
      w := Splicing(true, seg, m.heap, [], []);
      EmptiedValues(h1, s, keep);
      ghost var h2 := h1[s := h1[s].(payload := Slice(None, true))];
      KeptValues(h2, m, log, keep, old(m.held) - multiset{fn});
      MovedSegs(h0, s, h2, m.heap, log);
    } else {
      var out;
      ghost var orig, copies;
      out, orig, copies := SegmentCopy(m, s, seg);
      w := Splicing(false, out, m.heap, orig, copies);
      ExtendedValues(h1, m.heap, keep);
    }
  }

  lemma MovedSegs(h: Store, s: Ref, h2: Store, h': Store, log: seq<Ref>)
    requires s < |h| && h[s].payload.Slice?
    requires |h2| == |h| && h2[s].payload == Slice(None, true) && forall i: Ref :: i < |h| && i != s ==> h2[i].payload == h[i].payload
    requires Frees(h2, h', log)
    ensures SegMoved(h, h', s)
  {
    FreesShed(h2, h', log);
  }

  lemma MarkedValues(h: Store, h': Store, s: Ref, keep: seq<Ref>)
    requires s < |h| && h[s].payload.Slice? && h' == h[s := h[s].(payload := h[s].payload.(used := true))]
    requires forall j :: 0 <= j < |keep| ==> ValueAt(h, keep[j])
    ensures forall j :: 0 <= j < |keep| ==> ValueAt(h', keep[j])
  {
  }

  lemma EmptiedValues(h: Store, s: Ref, keep: seq<Ref>)
    requires s < |h| && h[s].payload.Slice?
    requires forall j :: 0 <= j < |keep| ==> ValueAt(h, keep[j])
    ensures forall j :: 0 <= j < |keep| ==> ValueAt(h[s := h[s].(payload := Slice(None, true))], keep[j])
  {
  }

  lemma KeptValues(h: Store, m: Machine, log: seq<Ref>, keep: seq<Ref>, held: multiset<Ref>)
    requires Inv(m, None) && Frees(h, m.heap, log) && m.held == held && multiset(keep) <= held
    requires forall j :: 0 <= j < |keep| ==> ValueAt(h, keep[j])
    ensures forall j :: 0 <= j < |keep| ==> ValueAt(m.heap, keep[j])
  {
    hide Inv, Frees, ValueAt;
    AllHeld(keep, held);
    forall j | 0 <= j < |keep|
      ensures ValueAt(m.heap, keep[j])
    {
      Survivor(h, m, log, keep[j]);
    }
  }

  lemma ExtendedValues(h: Store, h': Store, keep: seq<Ref>)
    requires Extends(h, h') && forall j :: 0 <= j < |keep| ==> ValueAt(h, keep[j])
    ensures forall j :: 0 <= j < |keep| ==> ValueAt(h', keep[j])
  {
  }

  /** Resume: splice the slice back and deliver the argument to it.  `last` is the heap
      once the value is handed over; the resumption's reference is dropped after. */
  method Resume(m: Machine, fr: Option<Ref>, fn: Ref, arg: Ref, owned: bool, unit: Ref, base: nat, layouts: seq<seq<bool>>)
      returns (r: Next, ghost w: Splicing, ghost path: seq<Moment>, ghost last: Store)
    requires Inv(m, None) && base <= |m.kont|
    requires multiset{fn} + Held1(fr) + multiset{arg, unit} <= m.held
    requires fn < |m.heap| && m.heap[fn].payload.Resumption? && ValueAt(m.heap, arg) && ValueAt(m.heap, unit)
    modifies m
    ensures Spliced(old(m.heap), fn, owned, w)
    ensures !Stops(r) ==>
              && Inv(m, None) && SameBelow(old(m.kont), m.kont, base)
              && m.held == old(m.held) - multiset{fn} - Held1(fr) + Carried(r)
              && Delivered(w.mid, old(m.kont) + w.out, arg, path, last, m.kont, r, unit, base, layouts) && Shed(last, m.heap)
    ensures Stops(r) ==> Halted(w.mid, old(m.kont) + w.out, arg, path, r, unit, base, layouts)
  {
    hide Good, Inv, ValueAt, Held1, Spliced, Delivered, Halted, Carried, Shed, SameBelow;
    ghost var keep := [arg, unit];
    assert multiset(keep) == multiset{arg, unit};
    ghost var h := m.held;
    KeepTwo(h, fn, Held1(fr), arg, unit);
    var moved;
    moved, w := Splice(m, fn, owned, keep);
    assert ValueAt(m.heap, keep[0]) && ValueAt(m.heap, keep[1]);
    r, path := DoRet(m, fr, arg, unit, base, layouts);
    last := m.heap;
    if !Stops(r) {
      BelowPrefix(old(m.kont), w.out, m.kont, base);
      DropResumption(m, fn, moved);
      HeldAfter(h, fn, Held1(fr), Carried(r), moved);
    }
  }

  lemma HeldAfter(h: multiset<Ref>, fn: Ref, fr: multiset<Ref>, carried: multiset<Ref>, moved: bool)
    requires multiset{fn} + fr <= h
    ensures h - multiset{fn} - fr + carried == (if moved then h - multiset{fn} - fr + carried else h - fr + carried - multiset{fn})
    ensures fn in h - fr + carried
  {
    assert (multiset{fn} + fr)[fn] <= h[fn];
  }

  /** A resumption that was not spent by moving its frames is released. */
  method DropResumption(m: Machine, fn: Ref, moved: bool)
    requires Inv(m, None) && (!moved ==> fn in m.held)
    modifies m
    ensures Inv(m, None) && m.kont == old(m.kont) && Shed(old(m.heap), m.heap)
    ensures m.held == if moved then old(m.held) else old(m.held) - multiset{fn}
  {
    hide Good, Inv, Frees, Shed, SegsKept;
    ghost var h := m.heap;
    if moved {
      CountsShed(h, m.heap);
    } else {
      ghost var log := Drop(m, fn, None);
      FreesShed(h, m.heap, log);
    }
  }

  lemma KeepTwo(held: multiset<Ref>, fn: Ref, fr: multiset<Ref>, arg: Ref, unit: Ref)
    requires multiset{fn} + fr + multiset{arg, unit} <= held
    ensures multiset{fn} + multiset{arg, unit} <= held
    ensures fr + multiset{arg, unit} <= held && fr + multiset{arg, unit} <= held - multiset{fn}
  {
    assert forall x :: (multiset{fn} + fr + multiset{arg, unit})[x] <= held[x];
  }

  lemma BelowPrefix(k: seq<KFrame>, out: seq<KFrame>, k': seq<KFrame>, base: nat)
    requires base <= |k| && SameBelow(k + out, k', base)
    ensures SameBelow(k, k', base)
  {
  }

  // ---- built-ins ----------------------------------------------------------

  predicate IsBuiltin(p: Payload) {
    p.Node? && (p.shape.Builtin? || p.shape.Extern?)
  }

  /** Its last operand: the built-in runs. */
  predicate Saturates(p: Payload)
    requires IsBuiltin(p)
  {
    |p.fields| + 1 == p.shape.arity
  }

  /** Grown by a copy of the built-in `fn` that has been given `arg` too. */
  ghost predicate Pushed(h: Store, h': Store, fn: Ref, arg: Ref) {
    && fn < |h| && h[fn].payload.Node? && |h'| == |h| + 1 && SameButCounts(h, h'[..|h|])
    && h'[|h|].payload == Node(h[fn].payload.shape, h[fn].payload.fields + [Some(arg)])
  }

  lemma {:induction false} PresentIs(row: seq<Option<Ref>>, skip: Option<Ref>, c: Ref)
    requires Present(row, skip)[c] > 0
    ensures exists i :: 0 <= i < |row| && row[i] == Some(c) && row[i] != skip
  {
    PresentFirst(row, skip);
    if row[0] != Some(c) || row[0] == skip {
      PresentIs(row[1..], skip, c);
      var i :| 0 <= i < |row[1..]| && row[1..][i] == Some(c) && row[1..][i] != skip;
      assert row[i + 1] == Some(c);
    }
  }

  /** The operands of a longer row are counted: they are the callee's, the callee itself,
      or the argument. */
  lemma OperandsCounted(m: Machine, fn: Ref, arg: Ref)
    requires Inv(m, None) && fn in m.held && arg in m.held && fn < |m.heap| && m.heap[fn].payload.Node? && !m.heap[fn].payload.shape.Parked? && ValueAt(m.heap, arg)
    ensures var p := Node(m.heap[fn].payload.shape, m.heap[fn].payload.fields + [Some(arg)]);
            PayloadOk(m.heap, p) && Counted(m.heap, Refs(|m.heap|, p))
  {
    InHand(m, fn);
    InHand(m, arg);
    PayloadCounted(m.heap, m.kont, m.held, None, fn);
    NodeOk(m, fn);
    LongerRow(m.heap, fn, arg);
    hide *;
  }

  lemma NodeOk(m: Machine, fn: Ref)
    requires Inv(m, None) && fn < |m.heap|
    ensures PayloadOk(m.heap, m.heap[fn].payload)
  {
    hide Exact, Intact, SegOk, PayloadOk;
  }

  lemma LongerRow(h: Store, fn: Ref, arg: Ref)
    requires fn < |h| && h[fn].rc > 0 && h[fn].payload.Node? && !h[fn].payload.shape.Parked? && ValueAt(h, arg) && h[arg].rc > 0
    requires PayloadOk(h, h[fn].payload) && Counted(h, Refs(fn, h[fn].payload))
    ensures var p := Node(h[fn].payload.shape, h[fn].payload.fields + [Some(arg)]); PayloadOk(h, p) && Counted(h, Refs(|h|, p))
  {
    var fields := h[fn].payload.fields;
    var row, skip := fields + [Some(arg)], Some(|h| as Ref);
    hide ValueAt, Present;
    forall c: Ref | c in Present(row, skip)
      ensures c < |h| && h[c].rc > 0
    {
      PresentIs(row, skip, c);
      var i :| 0 <= i < |row| && row[i] == Some(c) && row[i] != skip;
      if i < |fields| && c != fn {
        PresentHas(fields, Some(fn), i);
      }
    }
  }

  /** A fresh built-in value with `arg` after the operands of `fn`. */
  method PushArg(m: Machine, fn: Ref, arg: Ref) returns (x: Ref)
    requires Inv(m, None) && fn in m.held && arg in m.held && fn < |m.heap| && IsBuiltin(m.heap[fn].payload) && ValueAt(m.heap, arg)
    modifies m
    ensures Inv(m, None) && m.kont == old(m.kont) && m.held == old(m.held) + multiset{x}
    ensures x == |old(m.heap)| && Pushed(old(m.heap), m.heap, fn, arg)
  {
    ghost var h := m.heap;
    var p := Node(m.heap[fn].payload.shape, m.heap[fn].payload.fields + [Some(arg)]);
    OperandsCounted(m, fn, arg);
    assert !p.shape.Parked?;
    hide *;
    x := NewNode(m, p);
    PushedAs(h, m.heap, fn, arg, p);
  }

  lemma PushedAs(h: Store, h': Store, fn: Ref, arg: Ref, p: Payload)
    requires fn < |h| && h[fn].payload.Node? && p == Node(h[fn].payload.shape, h[fn].payload.fields + [Some(arg)])
    requires |h'| == |h| + 1 && SameButCounts(h, h'[..|h|]) && h'[|h|].payload == p
    ensures Pushed(h, h', fn, arg)
  {
  }

  /** A fresh value over operands that are counted: each is counted once more. */
  method NewNode(m: Machine, p: Payload) returns (x: Ref)
    requires Inv(m, None) && p.Node? && !p.shape.Parked? && PayloadOk(m.heap, p) && Counted(m.heap, Refs(|m.heap|, p))
    modifies m
    ensures Inv(m, None) && m.kont == old(m.kont) && m.held == old(m.held) + multiset{x}
    ensures x == |old(m.heap)| && |m.heap| == |old(m.heap)| + 1 && m.heap[x].payload == p && SameButCounts(old(m.heap), m.heap[..x])
  {
    hide Good, Refs, PayloadOk, Counted;
    ghost var h, held := m.heap, m.held;
    RetainPayload(m, |m.heap|, p);
    SamePayloadOk(h, m.heap, p);
    ghost var h1 := m.heap;
    x := New(m, p, None);
    assert m.heap[..|h|] == h1;
    assert m.held == held + multiset{x};
  }

  lemma SamePayloadOk(h: Store, h': Store, p: Payload)
    requires SameButCounts(h, h') && p.Node? && PayloadOk(h, p)
    ensures PayloadOk(h', p)
  {
  }

  /** How an application went: into the closure's code, to a handler, back into a
      captured slice, or, of a built-in, to a value that is handed on. */
  datatype How =
    | Calls
    | Returns(value: Ref, mid: Store, path: seq<Moment>)
    | Performs(prompt: nat, clause: nat, kval: Ref)
    | Resumes(splicing: Splicing, path: seq<Moment>)

  /** What applying `fn` to `arg` does, by what `fn` is. */
  ghost predicate Applied(h: Store, k: seq<KFrame>, fn: Ref, arg: Ref, owned: bool, unit: Ref, answer: Ref, base: nat, layouts: seq<seq<bool>>,
                          how: How, h': Store, k': seq<KFrame>, r: Next) {
    && fn < |h|
    && match h[fn].payload
       case Op(effect, op) =>
         how.Performs? && Performed(h, k, base, effect, op, arg, unit, h', k', r, layouts, how.prompt, how.clause, how.kval)
       case Resumption(_) =>
         && how.Resumes? && Spliced(h, fn, owned, how.splicing)
         && Delivered(how.splicing.mid, k + how.splicing.out, arg, how.path, h', k', r, unit, base, layouts)
       case Node(Builtin(_, _), _) => ReturnedBy(h, k, fn, arg, unit, answer, base, layouts, how, h', k', r)
       case Node(Extern(_, _), _) => ReturnedBy(h, k, fn, arg, unit, answer, base, layouts, how, h', k', r)
       case _ =>
         && how.Calls? && k' == k && SegsKept(h, h') && CanEnter(h, fn, 1, layouts)
         && Activated(h', r, fn, CodeOf(h[fn].payload), [arg], layouts)
  }

  /** Why applying `fn` stops, by what `fn` is: no clause handles the operation, the
      code that should run cannot be entered, or the delivery into the slice stops. */
  ghost predicate Refused(h: Store, k: seq<KFrame>, fn: Ref, arg: Ref, owned: bool, unit: Ref, answer: Ref, base: nat, layouts: seq<seq<bool>>,
                          how: How, r: Next) {
    && fn < |h|
    && match h[fn].payload
       case Op(effect, op) => r.Fault? && how.Performs? && Unhandled(h, k, base, effect, op, layouts, how.prompt, how.clause)
       case Resumption(_) =>
         && how.Resumes? && Spliced(h, fn, owned, how.splicing)
         && Halted(how.splicing.mid, k + how.splicing.out, arg, how.path, r, unit, base, layouts)
       case Node(Builtin(_, _), _) =>
         HandsOn(h, fn, arg, answer, how) && Halted(how.mid, k, how.value, how.path, r, unit, base, layouts)
       case Node(Extern(_, _), _) =>
         HandsOn(h, fn, arg, answer, how) && Halted(how.mid, k, how.value, how.path, r, unit, base, layouts)
       case _ => r.Fault? && !CanEnter(h, fn, 1, layouts)
  }

  /** What the code an application enters finds in its slots: a closure the argument in
      slot 0; a clause the operation's argument in slot 0, and in slot 1 unit if it cannot
      resume and the captured slice's resumption otherwise. */
  lemma ApplicationLands(h: Store, k: seq<KFrame>, fn: Ref, arg: Ref, owned: bool, unit: Ref, answer: Ref, base: nat, layouts: seq<seq<bool>>,
                         how: How, h': Store, k': seq<KFrame>, r: Next)
    requires Applied(h, k, fn, arg, owned, unit, answer, base, layouts, how, h', k', r)
    ensures how.Calls? ==> r.Enter? && r.frame < |h'| && Leading(h'[r.frame].payload, [arg])
    ensures how.Performs? ==>
              && how.prompt < |k| && k[how.prompt].KPrompt? && how.clause < |k[how.prompt].clauses|
              && r.Enter? && r.frame < |h'| && Leading(h'[r.frame].payload, [arg, how.kval])
              && h'[r.frame].payload.clos == Some(k[how.prompt].clauses[how.clause].fun)
              && (if k[how.prompt].clauses[how.clause].resume == Never then how.kval == unit
                  else how.kval < |h'| && h'[how.kval].payload == Resumption(|h|) && h'[|h|].payload == Slice(Some(k[how.prompt..]), false))
  {
    hide Activated, Leading, Enterable, SegsKept, Delivered, Spliced, Pushed, Uncaptured;
    match h[fn].payload
    case Op(effect, op) =>
      assert Nearest(k, base, effect, op, how.prompt, how.clause);
      var clause := k[how.prompt].clauses[how.clause].fun;
      ActivatedLeads(h', r, clause, CodeOf(h[clause].payload), [arg, how.kval], layouts);
    case Node(_, _) =>
      if how.Calls? {
        ActivatedLeads(h', r, fn, CodeOf(h[fn].payload), [arg], layouts);
      }
    case _ =>
      if how.Calls? {
        ActivatedLeads(h', r, fn, CodeOf(h[fn].payload), [arg], layouts);
      }
  }

  /** The arguments an application puts in the slots of the code it enters, if it enters
      some of its own accord. */
  function Given(how: How, arg: Ref): Option<seq<Ref>> {
    match how
    case Calls => Some([arg])
    case Performs(_, _, kval) => Some([arg, kval])
    case _ => None
  }

  ghost predicate Lands(h: Store, r: Next, how: How, arg: Ref) {
    Given(how, arg).Some? ==> r.Enter? && r.frame < |h| && Leading(h[r.frame].payload, Given(how, arg).value)
  }

  /** And still there once the call has given up its own references. */
  lemma LandsStill(m: Machine, h: Store, k: seq<KFrame>, fn: Ref, arg: Ref, owned: bool, unit: Ref, answer: Ref, base: nat, layouts: seq<seq<bool>>,
                   how: How, last: Store, r: Next)
    requires Applied(h, k, fn, arg, owned, unit, answer, base, layouts, how, last, m.kont, r)
    requires Inv(m, None) && Shed(last, m.heap) && forall x :: x in Carried(r) ==> x in m.held
    ensures Lands(m.heap, r, how, arg)
  {
    ApplicationLands(h, k, fn, arg, owned, unit, answer, base, layouts, how, last, m.kont, r);
    hide Applied, Leading, Inv;
    if r.Enter? {
      assert r.frame in m.held;
      AliveHeld(m, r.frame);
    }
  }

  lemma AliveHeld(m: Machine, x: Ref)
    requires Inv(m, None) && x in m.held
    ensures x < |m.heap| && !m.heap[x].payload.Freed?
  {
    hide Good;
    HeldCounted(m.heap, m.kont, m.held, x);
  }

  lemma CarriedHeld(held: multiset<Ref>, carried: multiset<Ref>)
    ensures forall x :: x in carried ==> x in held + carried
  {
  }

  /** A built-in with its last operand hands on what the runtime answers, and one short of
      it a fresh built-in that has been given the argument. */
  ghost predicate HandsOn(h: Store, fn: Ref, arg: Ref, answer: Ref, how: How) {
    && how.Returns? && fn < |h| && IsBuiltin(h[fn].payload)
    && if Saturates(h[fn].payload) then how.value == answer && SameButCounts(h, how.mid)
       else how.value == |h| && Pushed(h, how.mid, fn, arg)
  }

  /** A built-in of arity `n` that has been given `k` operands hands on the runtime's
      answer if and only if this one is its last, and otherwise a fresh one that holds one
      operand more. */
  lemma LastOperandAnswers(h: Store, fn: Ref, arg: Ref, answer: Ref, how: How)
    requires HandsOn(h, fn, arg, answer, how) && answer < |h|
    ensures h[fn].payload.Node? && (h[fn].payload.shape.Builtin? || h[fn].payload.shape.Extern?)
    ensures var sh, fields := h[fn].payload.shape, h[fn].payload.fields;
            if |fields| + 1 == sh.arity then how.value == answer
            else |h| == how.value < |how.mid| && how.mid[how.value].payload == Node(sh, fields + [Some(arg)])
    ensures how.value == answer <==> |h[fn].payload.fields| + 1 == h[fn].payload.shape.arity
  {
  }

  /** A built-in applied again and again: application `i` is of what the one before handed
      on, which is as it was handed on when it is applied. */
  datatype Call = Call(heap: Store, fn: Ref, arg: Ref, answer: Ref, how: How)

  ghost predicate Called(c: Call) {
    c.answer < |c.heap| && HandsOn(c.heap, c.fn, c.arg, c.answer, c.how)
  }

  ghost predicate CalledNext(c: Call, d: Call)
    requires Called(c)
  {
    && d.fn == c.how.value && d.fn < |c.how.mid| && d.fn < |d.heap|
    && d.heap[d.fn].payload == c.how.mid[d.fn].payload
  }

  ghost predicate CallsOn(calls: seq<Call>) {
    && (forall i :: 0 <= i < |calls| ==> Called(calls[i]))
    && forall i :: 0 < i < |calls| ==> CalledNext(calls[i - 1], calls[i])
  }

  /** From a built-in without operands, application `i` is of one that holds the arguments
      given before, in order; so the `n`-th and none before it is answered. */
  lemma {:induction false} NthIsAnswered(calls: seq<Call>, sh: Shape, i: nat)
    requires (sh.Builtin? || sh.Extern?) && CallsOn(calls) && i < |calls| && i < sh.arity
    requires calls[0].heap[calls[0].fn].payload == Node(sh, [])
    ensures var p := calls[i].heap[calls[i].fn].payload;
            p.Node? && p.shape == sh && |p.fields| == i && forall j :: 0 <= j < i ==> p.fields[j] == Some(calls[j].arg)
    ensures calls[i].how.value == calls[i].answer <==> i + 1 == sh.arity
  {
    hide HandsOn;
    assert Called(calls[i]) && Called(calls[0]);
    if i > 0 {
      NthIsAnswered(calls, sh, i - 1);
      var c := calls[i - 1];
      assert Called(c) && CalledNext(c, calls[i]);
      LastOperandAnswers(c.heap, c.fn, c.arg, c.answer, c.how);
    }
    LastOperandAnswers(calls[i].heap, calls[i].fn, calls[i].arg, calls[i].answer, calls[i].how);
  }

  ghost predicate ReturnedBy(h: Store, k: seq<KFrame>, fn: Ref, arg: Ref, unit: Ref, answer: Ref, base: nat, layouts: seq<seq<bool>>,
                             how: How, h': Store, k': seq<KFrame>, r: Next) {
    HandsOn(h, fn, arg, answer, how) && Delivered(how.mid, k, how.value, how.path, h', k', r, unit, base, layouts)
  }

  /** What the runtime answers, if it is to answer, is a value that is referenced. */
  ghost predicate Answered(h: Store, fn: Ref, answer: Ref) {
    fn < |h| && IsBuiltin(h[fn].payload) && Saturates(h[fn].payload) ==> ValueAt(h, answer) && h[answer].rc > 0
  }

  /** The value a built-in hands on, with a reference of its own. */
  method Operate(m: Machine, fn: Ref, arg: Ref, unit: Ref, answer: Ref) returns (x: Ref)
    requires Inv(m, None) && fn in m.held && arg in m.held && fn < |m.heap| && IsBuiltin(m.heap[fn].payload)
    requires ValueAt(m.heap, arg) && ValueAt(m.heap, unit) && Answered(m.heap, fn, answer)
    modifies m
    ensures Inv(m, None) && m.kont == old(m.kont) && m.held == old(m.held) + multiset{x}
    ensures HandsOn(old(m.heap), fn, arg, answer, Returns(x, m.heap, [])) && ValueAt(m.heap, x) && ValueAt(m.heap, unit)
  {
    hide Good, Pushed;
    ghost var h := m.heap;
    if Saturates(m.heap[fn].payload) {
      x := answer;
      Retain(m, answer, None);
      SameValue(h, m.heap, answer);
      SameValue(h, m.heap, unit);
    } else {
      x := PushArg(m, fn, arg);
      PushedValues(h, m.heap, fn, arg, unit);
    }
  }

  /** A built-in applied: what it hands on is delivered. */
  method HandOn(m: Machine, fr: Option<Ref>, fn: Ref, arg: Ref, unit: Ref, answer: Ref, base: nat, layouts: seq<seq<bool>>)
      returns (r: Next, ghost how: How, ghost last: Store)
    requires Inv(m, None) && base <= |m.kont| && fn in m.held && Held1(fr) + multiset{arg, unit} <= m.held
    requires fn < |m.heap| && IsBuiltin(m.heap[fn].payload) && ValueAt(m.heap, arg) && ValueAt(m.heap, unit) && Answered(m.heap, fn, answer)
    modifies m
    ensures HandsOn(old(m.heap), fn, arg, answer, how)
    ensures !Stops(r) ==>
              && Inv(m, None) && SameBelow(old(m.kont), m.kont, base) && m.held == old(m.held) - Held1(fr) + Carried(r)
              && Delivered(how.mid, old(m.kont), how.value, how.path, last, m.kont, r, unit, base, layouts) && Shed(last, m.heap)
    ensures Stops(r) ==> Halted(how.mid, old(m.kont), how.value, how.path, r, unit, base, layouts)
  {
    hide Good, Inv, ValueAt, Held1, Delivered, Halted, Carried, Shed, SameBelow, Pushed, Answered;
    ghost var held, path := m.held, [];
    assert arg in Held1(fr) + multiset{arg, unit};
    WithFresh(held, Held1(fr), arg, unit);
    var x := Operate(m, fn, arg, unit, answer);
    ghost var mid := m.heap;
    FreshToo(held, Held1(fr), unit, x);
    r, path := DoRet(m, fr, x, unit, base, layouts);
    how, last := Returns(x, mid, path), m.heap;
    if !Stops(r) {
      FreshLeft(held, Held1(fr), Carried(r), x);
      DropResumption(m, x, false);
    }
  }

  lemma PushedValues(h: Store, h': Store, fn: Ref, arg: Ref, unit: Ref)
    requires Pushed(h, h', fn, arg) && IsBuiltin(h[fn].payload) && ValueAt(h, unit)
    ensures ValueAt(h', unit) && ValueAt(h', |h|)
  {
    assert h'[..|h|][unit] == h'[unit];
  }

  lemma WithFresh(held: multiset<Ref>, fr: multiset<Ref>, arg: Ref, unit: Ref)
    requires fr + multiset{arg, unit} <= held
    ensures fr <= held && fr + multiset{unit} <= held
  {
    assert forall y :: (fr + multiset{arg, unit})[y] <= held[y];
  }

  lemma FreshToo(held: multiset<Ref>, fr: multiset<Ref>, unit: Ref, x: Ref)
    requires fr + multiset{unit} <= held
    ensures fr + multiset{x, unit} <= held + multiset{x}
  {
    assert forall y :: (fr + multiset{unit})[y] <= held[y];
    assert fr + multiset{x, unit} == fr + multiset{unit} + multiset{x};
  }

  lemma FreshLeft(held: multiset<Ref>, fr: multiset<Ref>, carried: multiset<Ref>, x: Ref)
    requires fr <= held
    ensures x in held + multiset{x} - fr + carried
    ensures held + multiset{x} - fr + carried - multiset{x} == held - fr + carried
  {
    assert forall y :: fr[y] <= held[y];
  }

  /** Apply a closure or an operation; the callee is still held afterwards. */
  method EnterOrPerform(m: Machine, fr: Option<Ref>, fn: Ref, arg: Ref, ghost owned: bool, unit: Ref, ghost answer: Ref, base: nat, layouts: seq<seq<bool>>)
      returns (r: Next, ghost how: How)
    requires Inv(m, None) && base <= |m.kont| && fn in m.held
    requires Held1(fr) + multiset{arg, unit} <= m.held
    requires ValueAt(m.heap, fn) && ValueAt(m.heap, arg) && ValueAt(m.heap, unit) && !m.heap[fn].payload.Resumption? && !IsBuiltin(m.heap[fn].payload)
    modifies m
    ensures !Stops(r) ==>
              && Inv(m, None) && SameBelow(old(m.kont), m.kont, base) && m.held == old(m.held) - Held1(fr) + Carried(r)
              && Applied(old(m.heap), old(m.kont), fn, arg, owned, unit, answer, base, layouts, how, m.heap, m.kont, r)
    ensures Stops(r) ==> Refused(old(m.heap), old(m.kont), fn, arg, owned, unit, answer, base, layouts, how, r)
  {
    hide Good, Inv, Held1, Performed, Unhandled, Activated, CanEnter, SegsKept;
    var p := m.heap[fn].payload;
    if p.Op? {
      ghost var at, cl, kval;
      r, at, cl, kval := Perform(m, fr, p.effect, p.op, arg, unit, base, layouts);
      how := Performs(at, cl, kval);
    } else {
      assert multiset{arg} <= multiset{arg, unit};
      assert Held1(fr) + multiset{arg} <= m.held;
      r := EnterCall(m, fr, fn, arg, layouts);
      how := Calls;
    }
  }

  /** Release the callee and the argument a call was given. */
  method Settled(m: Machine, xs: seq<Ref>)
    requires Inv(m, None) && multiset(xs) <= m.held
    modifies m
    ensures Inv(m, None) && m.kont == old(m.kont) && m.held == old(m.held) - multiset(xs)
    ensures Shed(old(m.heap), m.heap)
  {
    hide Good, Inv, Frees, Shed, SegsKept;
    assert xs[..0] == [];
    CountsShed(m.heap, m.heap);
    for i := 0 to |xs|
      invariant Inv(m, None) && m.kont == old(m.kont) && m.held == old(m.held) - multiset(xs[..i])
      invariant Shed(old(m.heap), m.heap)
    {
      TakeOne(old(m.held), xs, i);
      ghost var h := m.heap;
      ghost var log := Drop(m, xs[i], None);
      FreesShed(h, m.heap, log);
      ShedTrans(old(m.heap), h, m.heap);
    }
    assert xs[..|xs|] == xs;
  }

  lemma GiveUp(held: multiset<Ref>, xs: multiset<Ref>, fr: multiset<Ref>, rest: multiset<Ref>, carried: multiset<Ref>)
    requires xs + fr + rest <= held
    ensures xs <= held - fr + carried
    ensures held - fr + carried - xs == held - xs - fr + carried
  {
    assert forall x :: (xs + fr + rest)[x] <= held[x];
  }

  lemma Shares(held: multiset<Ref>, fn: Ref, fr: multiset<Ref>, arg: Ref, unit: Ref)
    requires multiset{fn} + fr + multiset{arg, unit} <= held
    ensures fn in held && multiset{arg} + fr + multiset{unit} <= held - multiset{fn}
    ensures multiset{fn, arg} + fr + multiset{unit} <= held
  {
    assert multiset{fn, arg} + fr + multiset{unit} == multiset{fn} + fr + multiset{arg, unit};
    assert multiset{fn} + (multiset{arg} + fr + multiset{unit}) == multiset{fn} + fr + multiset{arg, unit};
    Peel(held, fn, multiset{arg} + fr + multiset{unit});
  }

  lemma MinusTwo(held: multiset<Ref>, x: Ref, y: Ref)
    ensures held - multiset{x} - multiset{y} == held - multiset{x, y}
  {
  }

  lemma ByResuming(h: Store, k: seq<KFrame>, fn: Ref, arg: Ref, owned: bool, unit: Ref, answer: Ref, base: nat, layouts: seq<seq<bool>>,
                   w: Splicing, path: seq<Moment>, h': Store, k': seq<KFrame>, r: Next)
    requires fn < |h| && h[fn].payload.Resumption? && Spliced(h, fn, owned, w)
    ensures Delivered(w.mid, k + w.out, arg, path, h', k', r, unit, base, layouts) ==>
              Applied(h, k, fn, arg, owned, unit, answer, base, layouts, Resumes(w, path), h', k', r)
    ensures Halted(w.mid, k + w.out, arg, path, r, unit, base, layouts) ==>
              Refused(h, k, fn, arg, owned, unit, answer, base, layouts, Resumes(w, path), r)
  {
    hide Spliced, Delivered, Halted;
  }

  lemma ByHandingOn(h: Store, k: seq<KFrame>, fn: Ref, arg: Ref, owned: bool, unit: Ref, answer: Ref, base: nat, layouts: seq<seq<bool>>,
                    how: How, h': Store, k': seq<KFrame>, r: Next)
    requires HandsOn(h, fn, arg, answer, how)
    ensures Delivered(how.mid, k, how.value, how.path, h', k', r, unit, base, layouts) ==>
              Applied(h, k, fn, arg, owned, unit, answer, base, layouts, how, h', k', r)
    ensures Halted(how.mid, k, how.value, how.path, r, unit, base, layouts) ==>
              Refused(h, k, fn, arg, owned, unit, answer, base, layouts, how, r)
  {
    hide Delivered, Halted, Pushed;
  }

  /** Apply a closure, a built-in, an operation or a resumption to one argument.  The call
      holds a reference on both and gives them up; `fr` is the activation applying, and
      `answer` what the runtime answers if the built-in has all its operands.  `last` is
      the heap before those references go. */
  method DoApply(m: Machine, fr: Option<Ref>, fn: Ref, arg: Ref, owned: bool, unit: Ref, answer: Ref, base: nat, layouts: seq<seq<bool>>)
      returns (r: Next, ghost how: How, ghost last: Store)
    requires Inv(m, None) && base <= |m.kont|
    requires multiset{fn} + Held1(fr) + multiset{arg, unit} <= m.held
    requires ValueAt(m.heap, fn) && ValueAt(m.heap, arg) && ValueAt(m.heap, unit)
    requires Answered(m.heap, fn, answer)
    modifies m
    ensures !Stops(r) ==>
              && Inv(m, None) && SameBelow(old(m.kont), m.kont, base)
              && m.held == old(m.held) - multiset{fn, arg} - Held1(fr) + Carried(r)
              && Applied(old(m.heap), old(m.kont), fn, arg, owned, unit, answer, base, layouts, how, last, m.kont, r) && Shed(last, m.heap)
              && Lands(m.heap, r, how, arg)
    ensures Stops(r) ==> Refused(old(m.heap), old(m.kont), fn, arg, owned, unit, answer, base, layouts, how, r)
  {
    hide Good, Inv, Held1, Carried, SameBelow, Applied, Refused, Spliced, Delivered, Halted, SegsKept, Shed, Lands;
    ghost var h := m.held;
    KeepTwo(h, fn, Held1(fr), arg, unit);
    Shares(h, fn, Held1(fr), arg, unit);
    MinusTwo(h, fn, arg);
    if m.heap[fn].payload.Resumption? {
      ghost var w, path, before;
      r, w, path, before := Resume(m, fr, fn, arg, owned, unit, base, layouts);
      how, last := Resumes(w, path), before;
      ByResuming(old(m.heap), old(m.kont), fn, arg, owned, unit, answer, base, layouts, w, path, before, m.kont, r);
      if !Stops(r) {
        GiveUp(h - multiset{fn}, multiset{arg}, Held1(fr), multiset{unit}, Carried(r));
        assert multiset([arg]) == multiset{arg};
        ghost var h1 := m.heap;
        Settled(m, [arg]);
        ShedTrans(before, h1, m.heap);
      }
    } else if IsBuiltin(m.heap[fn].payload) {
      assert Held1(fr) + multiset{arg, unit} <= m.held && fn in m.held;
      r, how, last := HandOn(m, fr, fn, arg, unit, answer, base, layouts);
      ByHandingOn(old(m.heap), old(m.kont), fn, arg, owned, unit, answer, base, layouts, how, last, m.kont, r);
      if !Stops(r) {
        GiveUp(h, multiset{fn, arg}, Held1(fr), multiset{unit}, Carried(r));
        assert multiset([fn, arg]) == multiset{fn, arg};
        ghost var h1 := m.heap;
        Settled(m, [fn, arg]);
        ShedTrans(last, h1, m.heap);
      }
    } else {
      r, how := EnterOrPerform(m, fr, fn, arg, owned, unit, answer, base, layouts);
      last := m.heap;
      if !Stops(r) {
        GiveUp(h, multiset{fn, arg}, Held1(fr), multiset{unit}, Carried(r));
        assert multiset([fn, arg]) == multiset{fn, arg};
        Settled(m, [fn, arg]);
      }
    }
    if !Stops(r) {
      CarriedHeld(h - multiset{fn, arg} - Held1(fr), Carried(r));
      LandsStill(m, old(m.heap), old(m.kont), fn, arg, owned, unit, answer, base, layouts, how, last, r);
    }
  }

  /** A call of a closure: a fresh activation, and the calling one released. */
  method EnterCall(m: Machine, fr: Option<Ref>, fn: Ref, arg: Ref, layouts: seq<seq<bool>>) returns (r: Next)
    requires Inv(m, None) && Held1(fr) + multiset{arg} <= m.held && fn in m.held
    requires ValueAt(m.heap, fn) && ValueAt(m.heap, arg)
    modifies m
    ensures r.Fault? <==> !CanEnter(old(m.heap), fn, 1, layouts)
    ensures !Stops(r) ==>
              && Inv(m, None) && m.kont == old(m.kont) && m.held == old(m.held) - Held1(fr) + Carried(r)
              && Activated(m.heap, r, fn, CodeOf(old(m.heap)[fn].payload), [arg], layouts) && SegsKept(old(m.heap), m.heap)
    ensures !r.SelfThunk?
  {
    hide Good, Inv, ValueAt, RowOf, SegsKept, Outlives;
    assert arg in m.held;
    InHand(m, fn);
    r := EnterWith(m, fr, fn, [arg], layouts);
  }
}
