/** What each reference points at.

    The native runtime gets these facts from its C types: a return frame names an
    activation, a boundary or a resumption names a slice, everything else names a
    value.  They make the two counts of a slice mean what they should. */
module Kinds {
  import opened Common
  import opened Objects

  ghost predicate ValueAt(h: Store, x: Ref) {
    x < |h| && IsValue(h[x].payload)
  }

  ghost predicate ParkedAt(h: Store, x: Ref) {
    x < |h| && IsParked(h[x].payload)
  }

  /** A slot of an activation that is for values. */
  predicate ValueSlot(p: Payload, slot: nat)
    requires p.Activation?
  {
    slot < |p.locals| && slot < |p.tokens| && !p.tokens[slot]
  }

  /** A slot of an activation that is for a reuse token. */
  predicate TokenSlot(p: Payload, slot: nat)
    requires p.Activation?
  {
    slot < |p.locals| && slot < |p.tokens| && p.tokens[slot]
  }

  ghost predicate FrameOk(h: Store, kf: KFrame) {
    match kf
    case KRet(frame, slot, _) =>
      frame < |h| && h[frame].payload.Activation? && ValueSlot(h[frame].payload, slot)
    case KPrompt(clauses, els) =>
      ValueAt(h, els) && forall j :: 0 <= j < |clauses| ==> ValueAt(h, clauses[j].fun)
    case KDefer(cleanup) => ValueAt(h, cleanup)
    case KThunkRet(saved) => ValueAt(h, saved)
    case KAfterClause(res) => res < |h| && h[res].payload.Slice?
    case KCleanups(cleanups) => forall j :: 0 <= j < |cleanups| ==> ValueAt(h, cleanups[j])
  }

  ghost predicate SegOk(h: Store, seg: seq<KFrame>) {
    forall k :: 0 <= k < |seg| ==> FrameOk(h, seg[k])
  }

  ghost predicate RowOk(h: Store, row: seq<Option<Ref>>) {
    forall j :: 0 <= j < |row| && row[j].Some? ==> ValueAt(h, row[j].value)
  }

  /** What a slot may hold: a value, or in a token slot a parked cell. */
  ghost predicate SlotOk(h: Store, v: Option<Ref>, token: bool) {
    v.Some? ==> if token then ParkedAt(h, v.value) else ValueAt(h, v.value)
  }

  ghost predicate LocalsOk(h: Store, locals: seq<Option<Ref>>, tokens: seq<bool>) {
    |tokens| == |locals| && forall j :: 0 <= j < |locals| ==> SlotOk(h, locals[j], tokens[j])
  }

  /** A parked cell has no field left. */
  ghost predicate PayloadOk(h: Store, p: Payload) {
    match p
    case Node(shape, fields) => RowOk(h, fields) && (shape.Parked? ==> forall i :: 0 <= i < |fields| ==> fields[i].None?)
    case Link(target) => ValueAt(h, target)
    case Resumption(slice) => slice < |h| && h[slice].payload.Slice?
    case Activation(clos, locals, tokens) => RowOk(h, [clos]) && LocalsOk(h, locals, tokens)
    case Slice(Some(seg), _) => SegOk(h, seg)
    case Slice(None, used) => used
    case _ => true
  }

  ghost predicate Kinded(h: Store) {
    forall i :: 0 <= i < |h| ==> PayloadOk(h, h[i].payload)
  }

  /** Every resumption but `except` names a slice that still has its frames. */
  ghost predicate Intact(h: Store, except: Option<Ref>) {
    forall i :: 0 <= i < |h| && h[i].payload.Resumption? && Some(i) != except ==>
      var s := h[i].payload.slice;
      s < |h| && h[s].payload.Slice? && h[s].payload.seg.Some?
  }

  // ---- kinds survive ------------------------------------------------------

  predicate SameKind(p: Payload, q: Payload) {
    || (IsValue(p) && IsValue(q)) || (IsParked(p) && IsParked(q))
    || (p.Activation? && q.Activation? && |p.locals| == |q.locals| && p.tokens == q.tokens)
    || (p.Slice? && q.Slice?)
  }

  /** Nothing in `live` changed its kind between `h` and `h'`. */
  ghost predicate KeepsKind(h: Store, h': Store, live: multiset<Ref>) {
    |h| <= |h'| && forall x :: x in live && x < |h| ==> SameKind(h[x].payload, h'[x].payload)
  }

  lemma {:induction false} PresentHas(row: seq<Option<Ref>>, skip: Option<Ref>, j: nat)
    requires j < |row| && row[j].Some? && row[j] != skip
    ensures row[j].value in Present(row, skip)
  {
    if j > 0 {
      PresentHas(row[1..], skip, j - 1);
    }
  }

  lemma {:induction false} FunsHas(clauses: seq<Clause>, j: nat)
    requires j < |clauses|
    ensures clauses[j].fun in Funs(clauses)
  {
    if j > 0 {
      FunsHas(clauses[1..], j - 1);
    }
  }

  lemma {:induction false} SegHas(seg: seq<KFrame>, k: nat)
    requires k < |seg|
    ensures forall x: Ref :: KRefs(seg[k])[x] <= SegRefs(seg)[x]
    ensures forall x: Ref :: KBounds(seg[k])[x] <= SegBounds(seg)[x]
  {
    hide KRefs, KBounds;
    if k > 0 {
      SegHas(seg[1..], k - 1);
    }
  }

  lemma FrameKept(h: Store, h': Store, live: multiset<Ref>, kf: KFrame)
    requires FrameOk(h, kf) && KeepsKind(h, h', live)
    requires forall x :: x in KRefs(kf) ==> x in live
    ensures FrameOk(h', kf)
  {
    match kf
    case KPrompt(clauses, els) =>
      forall j | 0 <= j < |clauses|
        ensures ValueAt(h', clauses[j].fun)
      {
        FunsHas(clauses, j);
        assert ValueAt(h, clauses[j].fun);
        assert clauses[j].fun in KRefs(kf);
      }
      assert els in KRefs(kf);
    case KCleanups(cleanups) =>
      forall j | 0 <= j < |cleanups|
        ensures ValueAt(h', cleanups[j])
      {
        assert ValueAt(h, cleanups[j]);
        assert cleanups[j] in KRefs(kf);
      }
    case KRet(frame, _, _) => assert frame in KRefs(kf);
    case KDefer(cleanup) => assert cleanup in KRefs(kf);
    case KThunkRet(saved) => assert saved in KRefs(kf);
    case KAfterClause(res) => assert res in KRefs(kf);
  }

  lemma SegKept(h: Store, h': Store, live: multiset<Ref>, seg: seq<KFrame>)
    requires SegOk(h, seg) && KeepsKind(h, h', live)
    requires forall x :: x in SegRefs(seg) ==> x in live
    ensures SegOk(h', seg)
  {
    hide FrameOk, KeepsKind, KRefs, SegRefs;
    forall k | 0 <= k < |seg|
      ensures FrameOk(h', seg[k])
    {
      SegHas(seg, k);
      forall x | x in KRefs(seg[k])
        ensures x in live
      {
        assert KRefs(seg[k])[x] <= SegRefs(seg)[x];
        assert x in SegRefs(seg);
      }
      FrameKept(h, h', live, seg[k]);
    }
  }

  lemma RowKept(h: Store, h': Store, live: multiset<Ref>, row: seq<Option<Ref>>, skip: Option<Ref>)
    requires RowOk(h, row) && KeepsKind(h, h', live)
    requires forall x :: x in Present(row, skip) || Some(x) == skip ==> x in live
    ensures RowOk(h', row)
  {
    forall j | 0 <= j < |row| && row[j].Some?
      ensures ValueAt(h', row[j].value)
    {
      assert ValueAt(h, row[j].value);
      if row[j] != skip {
        PresentHas(row, skip, j);
      }
    }
  }

  lemma LocalsKept(h: Store, h': Store, live: multiset<Ref>, locals: seq<Option<Ref>>, tokens: seq<bool>)
    requires LocalsOk(h, locals, tokens) && KeepsKind(h, h', live)
    requires forall x :: x in Present(locals, None) ==> x in live
    ensures LocalsOk(h', locals, tokens)
  {
    forall j | 0 <= j < |locals|
      ensures SlotOk(h', locals[j], tokens[j])
    {
      assert SlotOk(h, locals[j], tokens[j]);
      if locals[j].Some? {
        PresentHas(locals, None, j);
      }
    }
  }

  lemma PayloadKept(h: Store, h': Store, live: multiset<Ref>, self: Ref, p: Payload)
    requires PayloadOk(h, p) && KeepsKind(h, h', live)
    requires self in live && forall x :: x in Refs(self, p) ==> x in live
    ensures PayloadOk(h', p)
  {
    hide KeepsKind, RowOk, LocalsOk, SegOk;
    match p
    case Node(_, fields) => RowKept(h, h', live, fields, Some(self));
    case Link(target) => LinkKept(h, h', live, target);
    case Resumption(slice) => SliceKept(h, h', live, slice);
    case Activation(clos, locals, tokens) =>
      RowKept(h, h', live, [clos], None);
      LocalsKept(h, h', live, locals, tokens);
    case Slice(Some(seg), _) => SegKept(h, h', live, seg);
    case _ =>
  }

  lemma LinkKept(h: Store, h': Store, live: multiset<Ref>, x: Ref)
    requires ValueAt(h, x) && KeepsKind(h, h', live) && x in live
    ensures ValueAt(h', x)
  {
  }

  lemma SliceKept(h: Store, h': Store, live: multiset<Ref>, x: Ref)
    requires x < |h| && h[x].payload.Slice? && KeepsKind(h, h', live) && x in live
    ensures x < |h'| && h'[x].payload.Slice?
  {
  }

  // ---- kinds and freeing --------------------------------------------------

  /** The objects not freed, as references. */
  ghost function Alive(h: Store): multiset<Ref> {
    multiset(set x: Ref | x < |h| && !h[x].payload.Freed?)
  }

  lemma RefsAlive(h: Store, roots: multiset<Ref>, bounds: multiset<Ref>, dead: seq<Ref>, i: Ref)
    requires Exact(h, roots, bounds, dead) && i < |h|
    ensures forall x :: x in Refs(i, h[i].payload) ==> x in Alive(h)
  {
    hide AllRefs, AllBounds, Refs, Bounds;
    RefsBelow(h, i);
    forall x | x in Refs(i, h[i].payload)
      ensures x in Alive(h)
    {
      assert Refs(i, h[i].payload)[x] <= AllRefs(h)[x];
      assert (AllRefs(h) + roots)[x] > 0;
    }
  }

  lemma FreesKeepsKind(h: Store, h': Store, log: seq<Ref>)
    requires Frees(h, h', log)
    ensures KeepsKind(h, h', Alive(h'))
  {
  }

  /** Releasing keeps every kind fact, and every resumption's slice intact. */
  lemma FreesKinded(h: Store, h': Store, log: seq<Ref>, roots: multiset<Ref>, bounds: multiset<Ref>, dead: seq<Ref>, except: Option<Ref>)
    requires Kinded(h) && Frees(h, h', log) && Exact(h', roots, bounds, dead)
    ensures Kinded(h')
    ensures Intact(h, except) ==> Intact(h', except)
  {
    hide Exact, Refs, PayloadOk, Alive, SegRefs, KeepsKind;
    FreesKeepsKind(h, h', log);
    forall i | 0 <= i < |h'|
      ensures PayloadOk(h', h'[i].payload)
    {
      FreesPayload(h, h', log, roots, bounds, dead, i);
    }
    if Intact(h, except) {
      forall i | 0 <= i < |h'| && h'[i].payload.Resumption? && Some(i) != except
        ensures var s := h'[i].payload.slice; s < |h'| && h'[s].payload.Slice? && h'[s].payload.seg.Some?
      {
        FreesIntact(h, h', log, roots, bounds, dead, i);
      }
    }
  }

  /** Releasing keeps the kinds on a stack that is among the roots. */
  lemma FreesStack(h: Store, h': Store, log: seq<Ref>, roots: multiset<Ref>, bounds: multiset<Ref>, dead: seq<Ref>, kont: seq<KFrame>)
    requires SegOk(h, kont) && Frees(h, h', log) && Exact(h', roots, bounds, dead)
    requires forall x: Ref :: SegRefs(kont)[x] <= roots[x]
    ensures SegOk(h', kont)
  {
    hide AllRefs, AllBounds, SegRefs, KeepsKind, FrameOk, SegOk, Frees;
    FreesKeepsKind(h, h', log);
    forall x | x in SegRefs(kont)
      ensures x in Alive(h')
    {
      assert SegRefs(kont)[x] <= roots[x];
      RootAlive(h', roots, bounds, dead, x);
    }
    SegKept(h, h', Alive(h'), kont);
  }

  /** What a root names is still there after a release, unchanged. */
  lemma StillThere(h: Store, h': Store, log: seq<Ref>, roots: multiset<Ref>, bounds: multiset<Ref>, dead: seq<Ref>, x: Ref)
    requires Frees(h, h', log) && Exact(h', roots, bounds, dead) && roots[x] > 0
    ensures x < |h'| && h'[x].rc > 0 && h'[x].payload == h[x].payload && !h[x].payload.Freed?
  {
    hide AllRefs, AllBounds;
    RootAlive(h', roots, bounds, dead, x);
  }

  lemma FreesPayload(h: Store, h': Store, log: seq<Ref>, roots: multiset<Ref>, bounds: multiset<Ref>, dead: seq<Ref>, i: Ref)
    requires Kinded(h) && Frees(h, h', log) && Exact(h', roots, bounds, dead) && i < |h'|
    ensures PayloadOk(h', h'[i].payload)
  {
    hide Exact, Refs;
    if !h'[i].payload.Freed? {
      FreesKeepsKind(h, h', log);
      RefsAlive(h', roots, bounds, dead, i);
      PayloadKept(h, h', Alive(h'), i, h[i].payload);
    }
  }

  lemma FreesIntact(h: Store, h': Store, log: seq<Ref>, roots: multiset<Ref>, bounds: multiset<Ref>, dead: seq<Ref>, i: Ref)
    requires Kinded(h) && Frees(h, h', log) && Exact(h', roots, bounds, dead)
    requires i < |h'| && h'[i].payload.Resumption?
    ensures var s := h'[i].payload.slice; s < |h'| && h'[s].payload == h[s].payload
  {
    hide Exact;
    RefsAlive(h', roots, bounds, dead, i);
    assert PayloadOk(h, h[i].payload);
    assert h'[i].payload.slice in Refs(i, h'[i].payload);
  }

  // ---- the two counts of a slice ------------------------------------------

  /** The resumption cells naming slice `s`. */
  function Cells(h: Store, s: Ref): nat {
    if |h| == 0 then 0
    else Cells(h[..|h| - 1], s) + (if h[|h| - 1].payload == Resumption(s) then 1 else 0)
  }

  lemma {:induction false} PresentHasNo(row: seq<Option<Ref>>, skip: Option<Ref>, s: Ref)
    requires forall j :: 0 <= j < |row| ==> row[j] != Some(s)
    ensures Present(row, skip)[s] == 0
  {
    if |row| > 0 {
      PresentHasNo(row[1..], skip, s);
    }
  }

  lemma RowHasNo(h: Store, row: seq<Option<Ref>>, skip: Option<Ref>, s: Ref)
    requires RowOk(h, row) && s < |h| && h[s].payload.Slice?
    ensures Present(row, skip)[s] == 0
  {
    forall j | 0 <= j < |row|
      ensures row[j] != Some(s)
    {
      assert row[j].Some? ==> ValueAt(h, row[j].value);
    }
    PresentHasNo(row, skip, s);
  }

  lemma LocalsHaveNo(h: Store, locals: seq<Option<Ref>>, tokens: seq<bool>, s: Ref)
    requires LocalsOk(h, locals, tokens) && s < |h| && h[s].payload.Slice?
    ensures Present(locals, None)[s] == 0
  {
    forall j | 0 <= j < |locals|
      ensures locals[j] != Some(s)
    {
      assert SlotOk(h, locals[j], tokens[j]);
    }
    PresentHasNo(locals, None, s);
  }

  lemma {:induction false} FunsHasNo(h: Store, clauses: seq<Clause>, s: Ref)
    requires forall j :: 0 <= j < |clauses| ==> ValueAt(h, clauses[j].fun)
    requires s < |h| && h[s].payload.Slice?
    ensures Funs(clauses)[s] == 0
  {
    if |clauses| > 0 {
      FunsHasNo(h, clauses[1..], s);
    }
  }

  lemma FrameNamesSlice(h: Store, kf: KFrame, s: Ref)
    requires FrameOk(h, kf) && s < |h| && h[s].payload.Slice?
    ensures KRefs(kf)[s] == KBounds(kf)[s]
  {
    match kf
    case KPrompt(clauses, els) => FunsHasNo(h, clauses, s);
    case KCleanups(cleanups) =>
      forall j | 0 <= j < |cleanups|
        ensures cleanups[j] != s
      {
        assert ValueAt(h, cleanups[j]);
      }
    case _ =>
  }

  lemma {:induction false} SegNamesSlice(h: Store, seg: seq<KFrame>, s: Ref)
    requires SegOk(h, seg) && s < |h| && h[s].payload.Slice?
    ensures SegRefs(seg)[s] == SegBounds(seg)[s]
  {
    hide KRefs, KBounds, FrameOk;
    if |seg| > 0 {
      FrameNamesSlice(h, seg[0], s);
      assert SegOk(h, seg[1..]) by {
        forall k | 0 <= k < |seg[1..]|
          ensures FrameOk(h, seg[1..][k])
        {
          assert FrameOk(h, seg[k + 1]);
        }
      }
      SegNamesSlice(h, seg[1..], s);
    }
  }

  lemma PayloadNamesSlice(h: Store, i: Ref, p: Payload, s: Ref)
    requires PayloadOk(h, p) && s < |h| && h[s].payload.Slice?
    ensures Refs(i, p)[s] == Bounds(p)[s] + (if p == Resumption(s) then 1 else 0)
  {
    hide SegOk, RowOk, LocalsOk;
    match p
    case Node(_, fields) => RowHasNo(h, fields, Some(i), s);
    case Link(target) => assert ValueAt(h, target);
    case Activation(clos, locals, tokens) =>
      RowHasNo(h, [clos], None, s);
      LocalsHaveNo(h, locals, tokens, s);
    case Slice(Some(seg), _) => SegNamesSlice(h, seg, s);
    case _ =>
  }

  lemma {:induction false} HeapNamesSlice(all: Store, h: Store, s: Ref)
    requires forall i :: 0 <= i < |h| ==> PayloadOk(all, h[i].payload)
    requires s < |all| && all[s].payload.Slice?
    ensures AllRefs(h)[s] == AllBounds(h)[s] + Cells(h, s)
  {
    hide PayloadOk, Refs, Bounds;
    if |h| > 0 {
      var n := |h| - 1;
      HeapNamesSlice(all, h[..n], s);
      PayloadNamesSlice(all, n, h[n].payload, s);
    }
  }

  /** A slice's owners: `rc` counts the resumption cells naming it and the clause
      boundaries naming it, on the stack and inside other slices, and `nbound`
      counts those boundaries.  (`held` and `heldBounds` are the references in
      flight.) */
  lemma SliceCounts(h: Store, kont: seq<KFrame>, held: multiset<Ref>, heldBounds: multiset<Ref>, dead: seq<Ref>, s: Ref)
    requires Exact(h, SegRefs(kont) + held, SegBounds(kont) + heldBounds, dead)
    requires Kinded(h) && SegOk(h, kont)
    requires s < |h| && h[s].payload.Slice?
    ensures h[s].nbound == AllBounds(h)[s] + SegBounds(kont)[s] + heldBounds[s]
    ensures h[s].rc + heldBounds[s] == h[s].nbound + Cells(h, s) + held[s]
  {
    hide AllRefs, AllBounds, SegRefs, SegBounds, PayloadOk, Cells, FrameOk;
    HeapNamesSlice(h, h, s);
    SegNamesSlice(h, kont, s);
  }

  lemma {:induction false} CellsCountOne(h: Store, s: Ref, i: Ref)
    requires i < |h| && h[i].payload == Resumption(s)
    ensures Cells(h, s) >= 1
    ensures Cells(h, s) == 1 ==> forall j :: 0 <= j < |h| && j != i ==> h[j].payload != Resumption(s)
  {
    var n := |h| - 1;
    if i < n {
      CellsCountOne(h[..n], s, i);
      if Cells(h, s) == 1 {
        forall j | 0 <= j < |h| && j != i
          ensures h[j].payload != Resumption(s)
        {
          assert j < n ==> h[..n][j] == h[j];
        }
      }
    } else if Cells(h, s) == 1 {
      CellsNone(h[..n], s);
      forall j | 0 <= j < |h| && j != i
        ensures h[j].payload != Resumption(s)
      {
        assert h[..n][j] == h[j];
      }
    }
  }

  lemma {:induction false} CellsNone(h: Store, s: Ref)
    requires Cells(h, s) == 0
    ensures forall j :: 0 <= j < |h| ==> h[j].payload != Resumption(s)
  {
    if |h| > 0 {
      var n := |h| - 1;
      CellsNone(h[..n], s);
      forall j | 0 <= j < |h|
        ensures h[j].payload != Resumption(s)
      {
        assert j < n ==> h[..n][j] == h[j];
      }
    }
  }

  // ---- changing one object ------------------------------------------------

  /** Changing an object's payload: the references it gives up become roots, and
      those it takes in stop being roots. */
  lemma {:induction false} ChangeObject(h: Store, roots: multiset<Ref>, bounds: multiset<Ref>, dead: seq<Ref>,
                     i: Ref, p: Payload, roots': multiset<Ref>, bounds': multiset<Ref>)
    requires Exact(h, roots, bounds, dead) && i < |h| && !h[i].payload.Freed? && !p.Freed?
    requires forall x: Ref :: roots'[x] + Refs(i, p)[x] == roots[x] + Refs(i, h[i].payload)[x]
    requires forall x: Ref :: bounds'[x] + Bounds(p)[x] == bounds[x] + Bounds(h[i].payload)[x]
    ensures Exact(h[i := h[i].(payload := p)], roots', bounds', dead)
  {
    hide AllRefs, AllBounds, Refs, Bounds, Tallied;
    var h' := h[i := h[i].(payload := p)];
    RefsUpdate(h, i, h'[i]);
    forall x: Ref
      ensures (AllRefs(h') + roots')[x] == (AllRefs(h) + roots)[x]
      ensures (AllBounds(h') + bounds')[x] == (AllBounds(h) + bounds)[x]
    {
    }
    ChangeTally(h, i, p, AllRefs(h) + roots, AllBounds(h) + bounds, AllRefs(h') + roots', AllBounds(h') + bounds', dead);
  }

  lemma {:induction false} ChangeTally(h: Store, i: Ref, p: Payload, total: multiset<Ref>, btotal: multiset<Ref>,
                    total': multiset<Ref>, btotal': multiset<Ref>, dead: seq<Ref>)
    requires Tallied(h, total, btotal, dead) && i < |h| && !h[i].payload.Freed? && !p.Freed?
    requires forall x: Ref :: total'[x] == total[x] && btotal'[x] == btotal[x]
    ensures Tallied(h[i := h[i].(payload := p)], total', btotal', dead)
  {
  }

  /** Allocating an object: it takes over references that were roots. */
  lemma NewObject(h: Store, roots: multiset<Ref>, bounds: multiset<Ref>, dead: seq<Ref>,
                  o: Obj, roots': multiset<Ref>, bounds': multiset<Ref>)
    requires Exact(h, roots, bounds, dead) && !o.payload.Freed? && o.rc > 0
    requires o.rc == roots'[|h|] && o.nbound == bounds'[|h|]
    requires bounds[|h|] == 0 && AllBounds(h)[|h|] == 0 && Bounds(o.payload)[|h|] == 0
    requires forall x: Ref :: x != |h| ==> roots'[x] + Refs(|h|, o.payload)[x] == roots[x]
    requires forall x: Ref :: x != |h| ==> bounds'[x] + Bounds(o.payload)[x] == bounds[x]
    requires Refs(|h|, o.payload)[|h|] == 0
    ensures Exact(h + [o], roots', bounds', dead)
  {
    hide AllRefs, AllBounds, Refs, Bounds;
    var h', n := h + [o], |h|;
    RefsAppend(h, o);
    assert (AllRefs(h) + roots)[n] == 0;
    AppendTally(h, o, AllRefs(h) + roots, AllBounds(h) + bounds, AllRefs(h') + roots', AllBounds(h') + bounds', dead);
  }

  lemma AppendTally(h: Store, o: Obj, total: multiset<Ref>, btotal: multiset<Ref>,
                    total': multiset<Ref>, btotal': multiset<Ref>, dead: seq<Ref>)
    requires Tallied(h, total, btotal, dead) && !o.payload.Freed? && o.rc > 0
    requires total'[|h|] == o.rc && btotal'[|h|] == o.nbound
    requires forall x: Ref :: x != |h| ==> total'[x] == total[x] && btotal'[x] == btotal[x]
    ensures Tallied(h + [o], total', btotal', dead)
  {
  }

  /** Boundaries are references, so nothing past the heap has any. */
  lemma {:induction false} SegBoundsBelow(seg: seq<KFrame>)
    ensures forall x: Ref :: SegBounds(seg)[x] <= SegRefs(seg)[x]
  {
    if |seg| > 0 {
      SegBoundsBelow(seg[1..]);
      FrameBoundsBelow(seg[0]);
    }
  }

  lemma FrameBoundsBelow(kf: KFrame)
    ensures forall x: Ref :: KBounds(kf)[x] <= KRefs(kf)[x]
  {
  }

  lemma BoundsBelowRefs(self: Ref, p: Payload)
    ensures forall x: Ref :: Bounds(p)[x] <= Refs(self, p)[x]
  {
    match p
    case Slice(Some(seg), _) => SegBoundsBelow(seg);
    case _ =>
  }

  lemma {:induction false} AllBoundsBelow(h: Store)
    ensures forall x: Ref :: AllBounds(h)[x] <= AllRefs(h)[x]
  {
    hide Refs, Bounds;
    if |h| > 0 {
      AllBoundsBelow(h[..|h| - 1]);
      BoundsBelowRefs(|h| - 1, h[|h| - 1].payload);
    }
  }

  /** Growing the heap, or changing one object within its kind, keeps the kinds. */
  lemma GrowKinded(h: Store, o: Obj)
    requires Kinded(h) && PayloadOk(h + [o], o.payload)
    ensures Kinded(h + [o])
    ensures forall kont :: SegOk(h, kont) ==> SegOk(h + [o], kont)
    ensures forall e :: Intact(h, e) && !o.payload.Resumption? ==> Intact(h + [o], e)
  {
    hide PayloadOk, FrameOk;
    var h' := h + [o];
    forall i | 0 <= i < |h'|
      ensures PayloadOk(h', h'[i].payload)
    {
      if i < |h| {
        SameObjectsPayload(h, h', h[i].payload);
      }
    }
    forall kont | SegOk(h, kont)
      ensures SegOk(h', kont)
    {
      SameObjectsSeg(h, h', kont);
    }
  }

  /** Every object keeps its kind. */
  ghost predicate AllKeepKind(h: Store, h': Store) {
    |h| <= |h'| && forall x :: 0 <= x < |h| ==> SameKind(h[x].payload, h'[x].payload) || (h[x].payload.Freed? && h'[x].payload.Freed?)
  }

  lemma SameObjectsFrame(h: Store, h': Store, kf: KFrame)
    requires AllKeepKind(h, h') && FrameOk(h, kf)
    ensures FrameOk(h', kf)
  {
    match kf
    case KPrompt(clauses, els) => assert forall j :: 0 <= j < |clauses| ==> ValueAt(h, clauses[j].fun);
    case KCleanups(cleanups) => assert forall j :: 0 <= j < |cleanups| ==> ValueAt(h, cleanups[j]);
    case _ =>
  }

  lemma SameObjectsSeg(h: Store, h': Store, seg: seq<KFrame>)
    requires AllKeepKind(h, h') && SegOk(h, seg)
    ensures SegOk(h', seg)
  {
    hide FrameOk, AllKeepKind;
    forall k | 0 <= k < |seg|
      ensures FrameOk(h', seg[k])
    {
      SameObjectsFrame(h, h', seg[k]);
    }
  }

  lemma SameObjectsPayload(h: Store, h': Store, p: Payload)
    requires AllKeepKind(h, h') && PayloadOk(h, p)
    ensures PayloadOk(h', p)
  {
    hide SegOk;
    match p
    case Slice(Some(seg), _) => SameObjectsSeg(h, h', seg);
    case Node(_, fields) => assert forall j :: 0 <= j < |fields| && fields[j].Some? ==> ValueAt(h, fields[j].value);
    case Activation(clos, locals, tokens) =>
      assert forall j :: 0 <= j < |locals| ==> SlotOk(h, locals[j], tokens[j]);
      assert clos.Some? ==> ValueAt(h, [clos][0].value);
    case Link(t) => assert ValueAt(h, t);
    case _ =>
  }

  lemma ChangeKinded(h: Store, i: Ref, o: Obj)
    requires Kinded(h) && i < |h| && SameKind(h[i].payload, o.payload) && PayloadOk(h[i := o], o.payload)
    ensures Kinded(h[i := o])
    ensures forall kont :: SegOk(h, kont) ==> SegOk(h[i := o], kont)
  {
    hide PayloadOk, FrameOk;
    var h' := h[i := o];
    forall j | 0 <= j < |h'|
      ensures PayloadOk(h', h'[j].payload)
    {
      if j != i {
        assert PayloadOk(h, h[j].payload);
        SameObjectsPayload(h, h', h[j].payload);
      }
    }
    forall kont | SegOk(h, kont)
      ensures SegOk(h', kont)
    {
      SameObjectsSeg(h, h', kont);
    }
  }

  /** Counts play no part in the kinds. */
  lemma CountKinded(h: Store, h': Store)
    requires Kinded(h) && |h| == |h'| && forall i :: 0 <= i < |h| ==> h'[i].payload == h[i].payload
    ensures Kinded(h')
    ensures forall kont :: SegOk(h, kont) ==> SegOk(h', kont)
    ensures forall e :: Intact(h, e) ==> Intact(h', e)
  {
    hide PayloadOk, FrameOk;
    forall j | 0 <= j < |h'|
      ensures PayloadOk(h', h'[j].payload)
    {
      assert PayloadOk(h, h[j].payload);
      SameObjectsPayload(h, h', h[j].payload);
    }
    forall kont | SegOk(h, kont)
      ensures SegOk(h', kont)
    {
      SameObjectsSeg(h, h', kont);
    }
  }
}
