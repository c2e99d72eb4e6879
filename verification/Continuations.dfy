/** Captured continuations: performing an operation, resuming, and returning.

    A perform moves the frames above its prompt into a slice; a resume moves them
    back when nothing else can resume the slice, and splices a private copy
    otherwise.  Every operation keeps every count exact. */
module Continuations {
  import opened Common
  import opened Ordering
  import opened Objects
  import opened Kinds
  import opened Runtime

  /** The state of the machine between two operations: counts exact, kinds right,
      and every resumption but `except` names a slice that still has its frames.
      `held` are the references in registers, C locals and the temporary pool. */
  ghost predicate Good(h: Store, kont: seq<KFrame>, held: multiset<Ref>, except: Option<Ref>) {
    && Exact(h, SegRefs(kont) + held, SegBounds(kont) + multiset{}, [])
    && Kinded(h) && SegOk(h, kont) && Intact(h, except)
  }

  ghost predicate Inv(m: Machine, except: Option<Ref>)
    reads m
  {
    && Good(m.heap, m.kont, m.held, except)
    && !m.draining && m.dead == [] && m.heldBounds == multiset{}
  }

  /** A machine before it runs anything. */
  method Start() returns (m: Machine)
    ensures fresh(m) && Inv(m, None) && m.heap == [] && m.kont == [] && m.held == multiset{}
  {
    m := new Machine();
  }

  // ---- the primitive moves ------------------------------------------------

  lemma RetainGood(h: Store, kont: seq<KFrame>, held: multiset<Ref>, e: Option<Ref>, x: Ref)
    requires Good(h, kont, held, e) && x < |h| && h[x].rc > 0
    ensures Good(h[x := h[x].(rc := h[x].rc + 1)], kont, held + multiset{x}, e)
  {
    hide Exact, Kinded, SegOk, Intact, SegRefs, SegBounds;
    var h' := h[x := h[x].(rc := h[x].rc + 1)];
    AddRoot(h, SegRefs(kont) + held, SegBounds(kont) + multiset{}, [], x);
    assert SegRefs(kont) + (held + multiset{x}) == SegRefs(kont) + held + multiset{x};
    CountKinded(h, h');
  }

  lemma GoodOf(m: Machine)
    requires Inv(m, None)
    ensures Good(m.heap, m.kont, m.held, None)
  {
  }

  method Retain(m: Machine, x: Ref, ghost e: Option<Ref>)
    requires Inv(m, e) && x < |m.heap| && m.heap[x].rc > 0
    modifies m
    ensures Inv(m, e)
    ensures m.heap == old(m.heap)[x := old(m.heap)[x].(rc := old(m.heap)[x].rc + 1)]
    ensures m.held == old(m.held) + multiset{x} && m.kont == old(m.kont)
  {
    hide Good;
    RetainGood(m.heap, m.kont, m.held, e, x);
    m.heap := m.heap[x := m.heap[x].(rc := m.heap[x].rc + 1)];
    m.held := m.held + multiset{x};
  }

  lemma FreesGood(h: Store, h': Store, log: seq<Ref>, kont: seq<KFrame>, held: multiset<Ref>, e: Option<Ref>)
    requires Kinded(h) && SegOk(h, kont) && Intact(h, e) && Frees(h, h', log)
    requires Exact(h', SegRefs(kont) + held, SegBounds(kont) + multiset{}, [])
    ensures Good(h', kont, held, e)
  {
    hide Exact, Frees, Kinded, SegOk, Intact, SegRefs, SegBounds;
    FreesKinded(h, h', log, SegRefs(kont) + held, SegBounds(kont) + multiset{}, [], e);
    FreesStack(h, h', log, SegRefs(kont) + held, SegBounds(kont) + multiset{}, [], kont);
  }

  /** Release `x` and whatever dies with it. */
  method Drop(m: Machine, x: Ref, ghost e: Option<Ref>) returns (ghost log: seq<Ref>)
    requires Inv(m, e) && m.held[x] > 0
    modifies m
    ensures Inv(m, e)
    ensures m.held == old(m.held) - multiset{x} && m.kont == old(m.kont)
    ensures Frees(old(m.heap), m.heap, log)
  {
    hide Exact, Frees, Kinded, SegOk, Intact, SegRefs, SegBounds;
    log := m.Release(x);
    FreesGood(old(m.heap), m.heap, log, m.kont, m.held, e);
  }

  lemma NewGood(h: Store, kont: seq<KFrame>, held: multiset<Ref>, e: Option<Ref>, p: Payload)
    requires Good(h, kont, held, e) && !p.Freed? && !p.Slice? && PayloadOk(h, p)
    requires Refs(|h|, p) <= held
    requires p.Resumption? ==> p.slice < |h| && h[p.slice].payload.Slice? && h[p.slice].payload.seg.Some?
    ensures Good(h + [Obj(1, 0, p)], kont, held - Refs(|h|, p) + multiset{|h|}, e)
  {
    hide AllRefs, AllBounds, Refs, Kinded, SegOk, Intact, SegRefs, SegBounds, PayloadOk, Tallied;
    var o, n := Obj(1, 0, p), |h|;
    var held' := held - Refs(n, p) + multiset{n};
    NothingPastTheHeap(h, SegBounds(kont) + multiset{}, [], SegRefs(kont), held);
    assert Refs(n, p)[n] <= held[n];
    SegBoundsBelow(kont);
    assert SegBounds(kont)[n] <= SegRefs(kont)[n];
    NewObject(h, SegRefs(kont) + held, SegBounds(kont) + multiset{}, [], o,
              SegRefs(kont) + held', SegBounds(kont) + multiset{});
    GrewBy(h, o);
    SameObjectsPayload(h, h + [o], p);
    GrowKinded(h, o);
    GrowIntact(h, o, e);
  }

  lemma GrewBy(h: Store, o: Obj)
    ensures AllKeepKind(h, h + [o])
  {
  }

  lemma GrowIntact(h: Store, o: Obj, e: Option<Ref>)
    requires Intact(h, e)
    requires o.payload.Resumption? ==>
               o.payload.slice < |h| && h[o.payload.slice].payload.Slice? && h[o.payload.slice].payload.seg.Some?
    ensures Intact(h + [o], e)
  {
  }

  /** A fresh object, held once, taking over references the caller held. */
  method New(m: Machine, p: Payload, ghost e: Option<Ref>) returns (x: Ref)
    requires Inv(m, e) && !p.Freed? && !p.Slice? && PayloadOk(m.heap, p)
    requires Refs(|m.heap|, p) <= m.held
    requires p.Resumption? ==> m.heap[p.slice].payload.seg.Some?
    modifies m
    ensures Inv(m, e)
    ensures x == |old(m.heap)| && m.heap == old(m.heap) + [Obj(1, 0, p)]
    ensures m.held == old(m.held) - Refs(x, p) + multiset{x} && m.kont == old(m.kont)
  {
    hide Good, Refs;
    NewGood(m.heap, m.kont, m.held, e, p);
    x := |m.heap|;
    m.heap := m.heap + [Obj(1, 0, p)];
    m.held := m.held - Refs(x, p) + multiset{x};
  }

  /** References stop at the end of the heap. */
  lemma NothingPastTheHeap(h: Store, bounds: multiset<Ref>, dead: seq<Ref>, a: multiset<Ref>, b: multiset<Ref>)
    requires Exact(h, a + b, bounds, dead)
    ensures forall x: Ref :: x >= |h| ==> a[x] == 0 && b[x] == 0 && AllRefs(h)[x] == 0 && AllBounds(h)[x] == 0
  {
    hide AllRefs, AllBounds;
    AllBoundsBelow(h);
    forall x: Ref | x >= |h|
      ensures a[x] == 0 && b[x] == 0 && AllRefs(h)[x] == 0 && AllBounds(h)[x] == 0
    {
      assert (AllRefs(h) + (a + b))[x] == 0;
      assert AllBounds(h)[x] <= AllRefs(h)[x];
    }
  }

  // ---- finding the handler ------------------------------------------------

  predicate Handles(c: Clause, effect: Option<nat>, op: nat) {
    c.op == op && !(effect.Some? && c.effect.Some? && effect != c.effect)
  }

  /** Both effects are named, and they are not the same. */
  predicate Differ(a: Option<nat>, b: Option<nat>) {
    match (a, b)
    case (Some(x), Some(y)) => x != y
    case _ => false
  }

  predicate NoClause(kf: KFrame, effect: Option<nat>, op: nat) {
    kf.KPrompt? ==> forall j :: 0 <= j < |kf.clauses| ==> !Handles(kf.clauses[j], effect, op)
  }

  /** The nearest prompt above `base` with a clause for the operation, and the
      first such clause of it. */
  method FindClause(kont: seq<KFrame>, base: nat, effect: Option<nat>, op: nat) returns (p: nat, j: nat, found: bool)
    requires base <= |kont|
    ensures found ==> base <= p < |kont| && kont[p].KPrompt? && j < |kont[p].clauses| && Handles(kont[p].clauses[j], effect, op)
    ensures found ==> forall i :: 0 <= i < j ==> !Handles(kont[p].clauses[i], effect, op)
    ensures found ==> forall q :: p < q < |kont| ==> NoClause(kont[q], effect, op)
    ensures !found ==> forall q :: base <= q < |kont| ==> NoClause(kont[q], effect, op)
    ensures found ==> kont[p].clauses[j].op == op && !Differ(kont[p].clauses[j].effect, effect)
    ensures found ==> forall i :: 0 <= i < j ==> kont[p].clauses[i].op != op || Differ(kont[p].clauses[i].effect, effect)
    ensures forall q, i :: (if found then p < q else base <= q) && q < |kont| && kont[q].KPrompt? && 0 <= i < |kont[q].clauses| ==>
              kont[q].clauses[i].op != op || Differ(kont[q].clauses[i].effect, effect)
  {
    p, j, found := |kont|, 0, false;
    while p > base
      invariant base <= p <= |kont|
      invariant forall q :: p <= q < |kont| ==> NoClause(kont[q], effect, op)
    {
      p := p - 1;
      if kont[p].KPrompt? {
        j := 0;
        while j < |kont[p].clauses|
          invariant 0 <= j <= |kont[p].clauses|
          invariant forall i :: 0 <= i < j ==> !Handles(kont[p].clauses[i], effect, op)
        {
          if Handles(kont[p].clauses[j], effect, op) {
            return p, j, true;
          }
          j := j + 1;
        }
      }
    }
  }

  // ---- perform ------------------------------------------------------------

  lemma CaptureGood(h: Store, kont: seq<KFrame>, held: multiset<Ref>, p: nat)
    requires Good(h, kont, held, None) && p <= |kont|
    ensures var s, o := |h|, Obj(2, 1, Slice(Some(kont[p..]), false));
            Good(h + [o], kont[..p] + [KAfterClause(s)], held + multiset{s}, None)
  {
    hide AllRefs, AllBounds, KRefs, Kinded, SegOk, Intact, SegRefs, SegBounds, Tallied, Present;
    var seg, s, o := kont[p..], |h|, Obj(2, 1, Slice(Some(kont[p..]), false));
    var kont', held' := kont[..p] + [KAfterClause(s)], held + multiset{s};
    CaptureRefs(kont, p, s);
    NothingPastTheHeap(h, SegBounds(kont) + multiset{}, [], SegRefs(kont), held);
    SegBoundsBelow(kont);
    assert SegRefs(seg)[s] <= SegRefs(kont)[s] && SegBounds(kont)[s] <= SegRefs(kont)[s];
    NewObject(h, SegRefs(kont) + held, SegBounds(kont) + multiset{}, [], o,
              SegRefs(kont') + held', SegBounds(kont') + multiset{});
    CaptureKinds(h, kont, p, o);
  }

  /** Capture the stack from the prompt `p` up: the frames move into a slice owned
      by a fresh resumption and by the clause boundary left in their place. */
  method Capture(m: Machine, p: nat) returns (k: Ref)
    requires Inv(m, None) && p <= |m.kont|
    modifies m
    ensures Inv(m, None)
    ensures var s := |old(m.heap)|;
            && k == s + 1
            && m.heap == old(m.heap) + [Obj(2, 1, Slice(Some(old(m.kont)[p..]), false)), Obj(1, 0, Resumption(s))]
            && m.kont == old(m.kont)[..p] + [KAfterClause(s)]
    ensures m.held == old(m.held) + multiset{k}
  {
    hide Good;
    var s := |m.heap|;
    CaptureGood(m.heap, m.kont, m.held, p);
    m.heap := m.heap + [Obj(2, 1, Slice(Some(m.kont[p..]), false))];
    m.kont := m.kont[..p] + [KAfterClause(s)];
    m.held := m.held + multiset{s};
    k := New(m, Resumption(s), None);
    assert m.held == old(m.held) + multiset{s} - multiset{s} + multiset{k};
  }

  lemma CaptureRefs(kont: seq<KFrame>, p: nat, s: Ref)
    requires p <= |kont|
    ensures forall x: Ref :: SegRefs(kont)[x] == SegRefs(kont[..p])[x] + SegRefs(kont[p..])[x]
    ensures forall x: Ref :: SegBounds(kont)[x] == SegBounds(kont[..p])[x] + SegBounds(kont[p..])[x]
    ensures forall x: Ref :: SegRefs(kont[..p] + [KAfterClause(s)])[x] == SegRefs(kont[..p])[x] + multiset{s}[x]
    ensures forall x: Ref :: SegBounds(kont[..p] + [KAfterClause(s)])[x] == SegBounds(kont[..p])[x] + multiset{s}[x]
  {
    hide SegRefs, SegBounds;
    assert kont == kont[..p] + kont[p..];
    SegRefsConcat(kont[..p], kont[p..]);
    SegRefsConcat(kont[..p], [KAfterClause(s)]);
    OneFrame(KAfterClause(s));
  }

  lemma OneFrame(kf: KFrame)
    ensures forall x: Ref :: SegRefs([kf])[x] == KRefs(kf)[x] && SegBounds([kf])[x] == KBounds(kf)[x]
  {
    hide KRefs, KBounds;
    assert SegRefs([kf][1..]) == multiset{};
    assert SegBounds([kf][1..]) == multiset{};
  }

  lemma CaptureKinds(h: Store, kont: seq<KFrame>, p: nat, o: Obj)
    requires Kinded(h) && SegOk(h, kont) && Intact(h, None) && p <= |kont|
    requires o.payload == Slice(Some(kont[p..]), false)
    ensures Kinded(h + [o]) && Intact(h + [o], None)
    ensures SegOk(h + [o], kont[..p] + [KAfterClause(|h|)])
  {
    hide FrameOk, Kinded;
    SameObjectsSeg(h, h + [o], kont);
    assert SegOk(h + [o], kont[p..]);
    GrowKinded(h, o);
    assert FrameOk(h + [o], KAfterClause(|h|)) by {
      NewBoundary(h, o);
    }
  }

  lemma NewBoundary(h: Store, o: Obj)
    requires o.payload.Slice?
    ensures FrameOk(h + [o], KAfterClause(|h|))
  {
  }

  // ---- pushing and popping frames -----------------------------------------

  lemma PushGood(h: Store, kont: seq<KFrame>, held: multiset<Ref>, e: Option<Ref>, kf: KFrame)
    requires Good(h, kont, held, e) && !kf.KAfterClause? && KRefs(kf) <= held && FrameOk(h, kf)
    ensures Good(h, kont + [kf], held - KRefs(kf), e)
  {
    hide Exact, Kinded, FrameOk, Intact, KRefs, SegRefs, SegBounds;
    PushRefs(kont, kf);
    assert SegRefs(kont + [kf]) + (held - KRefs(kf)) == SegRefs(kont) + held;
    assert SegBounds(kont + [kf]) == SegBounds(kont);
  }

  lemma PushRefs(kont: seq<KFrame>, kf: KFrame)
    ensures forall x: Ref :: SegRefs(kont + [kf])[x] == SegRefs(kont)[x] + KRefs(kf)[x]
    ensures forall x: Ref :: SegBounds(kont + [kf])[x] == SegBounds(kont)[x] + KBounds(kf)[x]
  {
    hide KRefs, KBounds, SegRefs, SegBounds;
    SegRefsConcat(kont, [kf]);
    OneFrame(kf);
  }

  /** Push a frame; the references it holds move onto the stack. */
  method Push(m: Machine, kf: KFrame, ghost e: Option<Ref>)
    requires Inv(m, e) && !kf.KAfterClause? && KRefs(kf) <= m.held && FrameOk(m.heap, kf)
    modifies m
    ensures Inv(m, e)
    ensures m.kont == old(m.kont) + [kf] && m.heap == old(m.heap) && m.held == old(m.held) - KRefs(kf)
  {
    hide Good, FrameOk, KRefs;
    PushGood(m.heap, m.kont, m.held, e, kf);
    m.kont := m.kont + [kf];
    m.held := m.held - KRefs(kf);
  }

  lemma PopExact(h: Store, kont: seq<KFrame>, held: multiset<Ref>, p: nat)
    requires p <= |kont| && Exact(h, SegRefs(kont) + held, SegBounds(kont) + multiset{}, [])
    ensures Exact(h, SegRefs(kont[..p]) + (held + SegRefs(kont[p..])), SegBounds(kont[..p]) + SegBounds(kont[p..]), [])
  {
    hide Exact, SegRefs, SegBounds;
    assert kont == kont[..p] + kont[p..];
    SegRefsConcat(kont[..p], kont[p..]);
    assert SegRefs(kont[..p]) + (held + SegRefs(kont[p..])) == SegRefs(kont) + held;
    assert SegBounds(kont[..p]) + SegBounds(kont[p..]) == SegBounds(kont) + multiset{};
  }

  lemma PopGood(h: Store, kont: seq<KFrame>, held: multiset<Ref>, e: Option<Ref>)
    requires Good(h, kont, held, e) && |kont| > 0 && !kont[|kont| - 1].KAfterClause?
    ensures var n := |kont| - 1;
            FrameOk(h, kont[n]) && Good(h, kont[..n], held + KRefs(kont[n]), e)
  {
    hide Exact, Kinded, FrameOk, Intact, KRefs, SegRefs, SegBounds;
    var n := |kont| - 1;
    PopExact(h, kont, held, n);
    assert kont[n..] == [kont[n]];
    OneFrame(kont[n]);
    assert SegRefs([kont[n]]) == KRefs(kont[n]);
    assert SegBounds([kont[n]]) == multiset{};
  }

  /** Pop a frame; the references it held are now the caller's. */
  method Pop(m: Machine, ghost e: Option<Ref>) returns (kf: KFrame)
    requires Inv(m, e) && |m.kont| > 0 && !m.kont[|m.kont| - 1].KAfterClause?
    modifies m
    ensures Inv(m, e) && FrameOk(m.heap, kf)
    ensures old(m.kont) == m.kont + [kf] && m.heap == old(m.heap) && m.held == old(m.held) + KRefs(kf)
  {
    hide Good, FrameOk, KRefs;
    PopGood(m.heap, m.kont, m.held, e);
    kf := m.kont[|m.kont| - 1];
    m.kont := m.kont[..|m.kont| - 1];
    m.held := m.held + KRefs(kf);
  }

  // ---- performing without capturing ---------------------------------------

  /** The `defer` cleanups of a slice, in slice order. */
  function Defers(seg: seq<KFrame>): seq<Ref> {
    if |seg| == 0 then []
    else
      var d := Defers(seg[..|seg| - 1]);
      if seg[|seg| - 1].KDefer? then d + [seg[|seg| - 1].cleanup] else d
  }

  function CleanupOf(kf: KFrame): Option<Ref> {
    if kf.KDefer? then Some(kf.cleanup) else None
  }

  /** `cs` are the cleanups of the `defer` frames of `seg`, each once and in slice order. */
  ghost predicate CleanupsOf(seg: seq<KFrame>, cs: seq<Ref>) {
    InOrder(seg, CleanupOf, cs)
  }

  lemma {:induction false} DefersInOrder(seg: seq<KFrame>)
    ensures CleanupsOf(seg, Defers(seg))
  {
    hide InOrder;
    if |seg| == 0 {
      NoneInOrder(CleanupOf);
    } else {
      var n := |seg| - 1;
      DefersInOrder(seg[..n]);
      MoreInOrder(seg[..n], seg[n], CleanupOf, Defers(seg[..n]));
      assert seg == seg[..n] + [seg[n]];
    }
  }

  /** Everything in `refs` is referenced by somebody. */
  ghost predicate Counted(h: Store, refs: multiset<Ref>) {
    forall x :: x in refs ==> x < |h| && h[x].rc > 0
  }

  /** Gather the cleanups of a run of frames, with a reference on each. */
  method SegmentCleanups(m: Machine, seg: seq<KFrame>, ghost e: Option<Ref>) returns (cs: seq<Ref>)
    requires Inv(m, e) && SegOk(m.heap, seg) && Counted(m.heap, SegRefs(seg))
    modifies m
    ensures Inv(m, e)
    ensures cs == Defers(seg) && m.kont == old(m.kont) && m.held == old(m.held) + multiset(cs)
    ensures forall j :: 0 <= j < |cs| ==> ValueAt(m.heap, cs[j])
    ensures SameButCounts(old(m.heap), m.heap)
  {
    hide Good, KRefs, SegRefs, FrameOk, Inv, Defers, SegOk;
    cs := [];
    assert seg[..0] == [];
    NoDefers();
    for i := 0 to |seg|
      invariant Inv(m, e) && m.kont == old(m.kont)
      invariant cs == Defers(seg[..i]) && m.held == old(m.held) + multiset(cs)
      invariant forall j :: 0 <= j < |cs| ==> ValueAt(m.heap, cs[j])
      invariant SameButCounts(old(m.heap), m.heap) && Counted(m.heap, SegRefs(seg))
    {
      DefersNext(seg, i);
      if seg[i].KDefer? {
        DeferInSegment(old(m.heap), seg, i);
        Retain(m, seg[i].cleanup, e);
        cs := cs + [seg[i].cleanup];
      }
    }
    assert seg[..|seg|] == seg;
  }

  lemma NoDefers()
    ensures Defers([]) == []
  {
  }

  lemma DefersNext(seg: seq<KFrame>, i: nat)
    requires i < |seg|
    ensures Defers(seg[..i + 1]) == Defers(seg[..i]) + if seg[i].KDefer? then [seg[i].cleanup] else []
  {
    assert seg[..i + 1][..|seg[..i + 1]| - 1] == seg[..i];
  }

  /** The same payloads at every reference; only counts may differ. */
  ghost predicate SameButCounts(h: Store, h': Store) {
    |h| == |h'| && forall i :: 0 <= i < |h| ==> h'[i].payload == h[i].payload
  }

  lemma DeferInSegment(h: Store, seg: seq<KFrame>, i: nat)
    requires SegOk(h, seg) && i < |seg| && seg[i].KDefer?
    ensures var c := seg[i].cleanup; ValueAt(h, c) && c in SegRefs(seg)
  {
    hide SegRefs;
    SegHas(seg, i);
    assert FrameOk(h, seg[i]);
    assert KRefs(seg[i])[seg[i].cleanup] > 0;
  }

  lemma StackCounted(h: Store, kont: seq<KFrame>, held: multiset<Ref>, e: Option<Ref>)
    requires Good(h, kont, held, e)
    ensures Counted(h, SegRefs(kont)) && Counted(h, held)
  {
    hide Exact, Kinded, SegOk, Intact, SegRefs, SegBounds;
    forall x | x in SegRefs(kont) || x in held
      ensures x < |h| && h[x].rc > 0
    {
      assert (SegRefs(kont) + held)[x] > 0;
      RootAlive(h, SegRefs(kont) + held, SegBounds(kont) + multiset{}, [], x);
    }
  }

  /** An object that is itself referenced references only counted things. */
  lemma PayloadCounted(h: Store, kont: seq<KFrame>, held: multiset<Ref>, e: Option<Ref>, i: Ref)
    requires Good(h, kont, held, e) && i < |h|
    ensures Counted(h, Refs(i, h[i].payload))
  {
    hide AllRefs, AllBounds, Kinded, SegOk, Intact, SegRefs, SegBounds, Refs;
    RefsBelow(h, i);
    forall x | x in Refs(i, h[i].payload)
      ensures x < |h| && h[x].rc > 0
    {
      assert Refs(i, h[i].payload)[x] <= AllRefs(h)[x];
      assert (AllRefs(h) + (SegRefs(kont) + held))[x] > 0;
    }
  }

  lemma SuffixCounted(h: Store, kont: seq<KFrame>, p: nat)
    requires p <= |kont| && Counted(h, SegRefs(kont)) && SegOk(h, kont)
    ensures Counted(h, SegRefs(kont[p..])) && SegOk(h, kont[p..])
  {
    hide FrameOk, SegRefs;
    assert kont == kont[..p] + kont[p..];
    SegRefsConcat(kont[..p], kont[p..]);
    assert forall x: Ref :: SegRefs(kont[p..])[x] <= SegRefs(kont)[x];
  }

  lemma CleanupsOk(h: Store, cs: seq<Ref>)
    requires forall j :: 0 <= j < |cs| ==> ValueAt(h, cs[j])
    ensures FrameOk(h, KCleanups(cs))
  {
  }

  lemma CleanupsSurvive(h: Store, h': Store, log: seq<Ref>, kont: seq<KFrame>, held: multiset<Ref>, cs: seq<Ref>)
    requires Frees(h, h', log) && Exact(h', SegRefs(kont) + held, SegBounds(kont) + multiset{}, [])
    requires multiset(cs) <= held && forall j :: 0 <= j < |cs| ==> ValueAt(h, cs[j])
    ensures forall j :: 0 <= j < |cs| ==> ValueAt(h', cs[j])
  {
    hide Exact, Frees, SegRefs, SegBounds;
    forall j | 0 <= j < |cs|
      ensures ValueAt(h', cs[j])
    {
      assert cs[j] in multiset(cs);
      assert (SegRefs(kont) + held)[cs[j]] > 0;
      StillThere(h, h', log, SegRefs(kont) + held, SegBounds(kont) + multiset{}, [], cs[j]);
    }
  }

  /** Release the frames from `p` up. */
  method DropFrames(m: Machine, p: nat, ghost e: Option<Ref>) returns (ghost log: seq<Ref>)
    requires Inv(m, e) && p <= |m.kont|
    modifies m
    ensures Inv(m, e)
    ensures m.kont == old(m.kont)[..p] && m.held == old(m.held)
    ensures Frees(old(m.heap), m.heap, log)
  {
    hide Exact, Frees, Kinded, FrameOk, Intact, SegRefs, SegBounds;
    var seg := m.kont[p..];
    PopExact(m.heap, m.kont, m.held, p);
    m.kont := m.kont[..p];
    m.held := m.held + SegRefs(seg);
    m.heldBounds := SegBounds(seg);
    log := m.ReleaseFrames(seg);
    assert m.held == old(m.held);
    assert m.heldBounds == multiset{};
    FreesGood(old(m.heap), m.heap, log, m.kont, m.held, e);
  }

  /** Drop the frames from the prompt `p` up, keeping only their cleanups, in a
      frame left in their place (none when there is nothing to clean up). */
  method Abandon(m: Machine, p: nat) returns (ghost log: seq<Ref>)
    requires Inv(m, None) && p <= |m.kont|
    modifies m
    ensures Inv(m, None)
    ensures var cs := Defers(old(m.kont)[p..]);
            m.kont == old(m.kont)[..p] + (if |cs| == 0 then [] else [KCleanups(cs)])
    ensures m.held == old(m.held)
    ensures Frees(old(m.heap), m.heap, log)
  {
    hide Exact, Frees, Kinded, SegOk, FrameOk, Intact, SegRefs, SegBounds, Defers, Counted;
    StackCounted(m.heap, m.kont, m.held, None);
    SuffixCounted(m.heap, m.kont, p);
    var cs := SegmentCleanups(m, m.kont[p..], None);
    ghost var h1 := m.heap;
    FreesNothing(old(m.heap), h1);
    log := DropFrames(m, p, None);
    FreesCompose(old(m.heap), h1, m.heap, [], log);
    assert [] + log == log;
    if |cs| > 0 {
      CleanupsSurvive(h1, m.heap, log, m.kont, m.held, cs);
      CleanupsOk(m.heap, cs);
      Push(m, KCleanups(cs), None);
      assert m.held == old(m.held);
    }
  }

  // ---- resume by moving ---------------------------------------------------

  lemma MarkUsedGood(h: Store, kont: seq<KFrame>, held: multiset<Ref>, s: Ref)
    requires Good(h, kont, held, None) && s < |h| && h[s].payload.Slice? && h[s].payload.seg.Some?
    ensures Good(h[s := h[s].(payload := h[s].payload.(used := true))], kont, held, None)
  {
    hide Exact, Kinded, SegOk, Intact, SegRefs, SegBounds, PayloadOk;
    var p := h[s].payload.(used := true);
    var h' := h[s := h[s].(payload := p)];
    UsedIsNoRef(s, h[s].payload);
    ChangeObject(h, SegRefs(kont) + held, SegBounds(kont) + multiset{}, [], s, p,
                 SegRefs(kont) + held, SegBounds(kont) + multiset{});
    UsedKinds(h, s);
    ChangeKinded(h, s, h'[s]);
  }

  lemma UsedIsNoRef(s: Ref, p: Payload)
    requires p.Slice?
    ensures Refs(s, p.(used := true)) == Refs(s, p) && Bounds(p.(used := true)) == Bounds(p)
  {
  }

  lemma UsedKinds(h: Store, s: Ref)
    requires Kinded(h) && s < |h| && h[s].payload.Slice? && h[s].payload.seg.Some?
    ensures var h' := h[s := h[s].(payload := h[s].payload.(used := true))];
            && PayloadOk(h', h'[s].payload)
            && (Intact(h, None) ==> Intact(h', None))
  {
    hide FrameOk;
    var h' := h[s := h[s].(payload := h[s].payload.(used := true))];
    assert PayloadOk(h, h[s].payload);
    SameObjectsSeg(h, h', h[s].payload.seg.value);
  }

  /** The frames of a slice only its resumption `fn` can resume move back. */
  lemma MoveGood(h: Store, kont: seq<KFrame>, held: multiset<Ref>, fn: Ref, s: Ref)
    requires Good(h, kont, held, None) && fn < |h| && h[fn].payload == Resumption(s)
    requires s < |h| && h[s].payload.Slice? && h[s].payload.seg.Some? && h[s].rc == h[s].nbound + 1
    ensures Good(h[s := h[s].(payload := Slice(None, true))], kont + h[s].payload.seg.value, held, Some(fn))
  {
    hide Exact, Kinded, SegOk, Intact, SegRefs, SegBounds, PayloadOk, FrameOk;
    var seg := h[s].payload.seg.value;
    var h' := h[s := h[s].(payload := Slice(None, true))];
    SegRefsConcat(kont, seg);
    ChangeObject(h, SegRefs(kont) + held, SegBounds(kont) + multiset{}, [], s, Slice(None, true),
                 SegRefs(kont + seg) + held, SegBounds(kont + seg) + multiset{});
    MoveKinds(h, kont, s);
    OnlyOwner(h, kont, held, fn, s);
    MoveIntact(h, fn, s);
  }

  lemma MoveKinds(h: Store, kont: seq<KFrame>, s: Ref)
    requires Kinded(h) && SegOk(h, kont) && s < |h| && h[s].payload.Slice? && h[s].payload.seg.Some?
    ensures var h' := h[s := h[s].(payload := Slice(None, true))];
            Kinded(h') && SegOk(h', kont + h[s].payload.seg.value)
  {
    hide FrameOk, Kinded;
    var h' := h[s := h[s].(payload := Slice(None, true))];
    var seg := h[s].payload.seg.value;
    KindedAt(h, s);
    assert SegOk(h, kont + seg);
    SameObjectsSeg(h, h', kont + seg);
    ChangeKinded(h, s, h'[s]);
  }

  lemma KindedAt(h: Store, i: Ref)
    requires Kinded(h) && i < |h|
    ensures PayloadOk(h, h[i].payload)
  {
    hide PayloadOk;
  }

  /** With one more owner than boundaries, one resumption cell names the slice. */
  lemma OnlyOwner(h: Store, kont: seq<KFrame>, held: multiset<Ref>, fn: Ref, s: Ref)
    requires Good(h, kont, held, None) && fn < |h| && h[fn].payload == Resumption(s)
    requires s < |h| && h[s].payload.Slice? && h[s].rc == h[s].nbound + 1
    ensures forall j :: 0 <= j < |h| && j != fn ==> h[j].payload != Resumption(s)
  {
    hide Exact, Kinded, SegOk, Intact, SegRefs, SegBounds;
    SliceCounts(h, kont, held, multiset{}, [], s);
    CellsCountOne(h, s, fn);
  }

  lemma MoveIntact(h: Store, fn: Ref, s: Ref)
    requires Intact(h, None) && fn < |h| && s < |h| && h[s].payload.Slice?
    requires forall j :: 0 <= j < |h| && j != fn ==> h[j].payload != Resumption(s)
    ensures Intact(h[s := h[s].(payload := Slice(None, true))], Some(fn))
  {
  }

  /** A freed resumption no longer counts as an exception. */
  lemma FreedIntact(h: Store, fn: Ref)
    requires Intact(h, Some(fn)) && fn < |h| && h[fn].payload.Freed?
    ensures Intact(h, None)
  {
  }

  /** Resume by moving: `fn` is the slice's only resumption, held by this call
      alone.  The frames go back on the stack, the emptied slice stays behind for
      its boundaries, and the spent resumption dies. */
  method Move(m: Machine, fn: Ref, s: Ref) returns (ghost log: seq<Ref>)
    requires Inv(m, None) && m.held[fn] > 0 && fn < |m.heap| && m.heap[fn].payload == Resumption(s) && m.heap[fn].rc == 1
    requires s < |m.heap| && m.heap[s].payload.Slice? && m.heap[s].payload.seg.Some?
    requires m.heap[s].rc == m.heap[s].nbound + 1
    modifies m
    ensures Inv(m, None)
    ensures m.kont == old(m.kont) + old(m.heap)[s].payload.seg.value
    ensures m.held == old(m.held) - multiset{fn}
    ensures Frees(old(m.heap)[s := old(m.heap)[s].(payload := Slice(None, true))], m.heap, log)
    ensures m.heap[fn].payload.Freed?
  {
    hide Exact, Frees, Kinded, SegOk, Intact, SegRefs, SegBounds;
    MoveGood(m.heap, m.kont, m.held, fn, s);
    var seg := m.heap[s].payload.seg.value;
    m.kont := m.kont + seg;
    m.heap := m.heap[s := m.heap[s].(payload := Slice(None, true))];
    ghost var h1 := m.heap;
    log := Drop(m, fn, Some(fn));
    assert SegRefs(m.kont) + m.held == SegRefs(m.kont) + old(m.held) - multiset{fn};
    TheLast(h1, m.heap, SegRefs(m.kont) + old(m.held), SegBounds(m.kont) + multiset{}, log, fn);
    FreedIntact(m.heap, fn);
  }
}
