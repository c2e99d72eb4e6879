/** Handing a finished value to the continuation stack (`do_ret`), entering
    closures, and applying operations and resumptions (`do_apply`). */
module Delivery {
  import opened Common
  import opened Objects
  import opened Kinds
  import opened Runtime
  import opened Continuations
  import opened Slots

  // ---- what a step may do to the heap -------------------------------------

  /** Every object is as it was, but for its count, or freed. */
  ghost predicate Shed(h: Store, h': Store) {
    |h'| == |h| && forall i: Ref :: i < |h| ==> h'[i].payload == h[i].payload || h'[i].payload.Freed?
  }

  /** The same, with objects added. */
  ghost predicate Outlives(h: Store, h': Store) {
    |h| <= |h'| && forall i: Ref :: i < |h| ==> h'[i].payload == h[i].payload || h'[i].payload.Freed?
  }

  lemma OutlivesTrans(h: Store, h1: Store, h2: Store)
    requires Outlives(h, h1) && Outlives(h1, h2)
    ensures Outlives(h, h2)
  {
  }

  lemma GrownOutlives(h: Store, h': Store)
    requires |h'| == |h| + 1 && SameButCounts(h, h'[..|h|])
    ensures Outlives(h, h')
  {
    assert forall i: Ref :: i < |h| ==> h'[..|h|][i] == h'[i];
  }

  /** What is still referenced is as it was. */
  lemma AliveSame(m: Machine, h: Store, x: Ref)
    requires Inv(m, None) && Outlives(h, m.heap) && x < |h| && (x in m.held || x in SegRefs(m.kont))
    ensures x < |m.heap| && m.heap[x].payload == h[x].payload
  {
    hide Good;
    HeldCounted(m.heap, m.kont, m.held, x);
  }

  /** No captured frames but those there were. */
  ghost predicate SegsKept(h: Store, h': Store) {
    forall i: Ref :: i < |h'| && h'[i].payload.Slice? && h'[i].payload.seg.Some? ==>
      i < |h| && h[i].payload.Slice? && h[i].payload.seg == h'[i].payload.seg
  }

  lemma FreesShed(h: Store, h': Store, log: seq<Ref>)
    requires Frees(h, h', log)
    ensures Shed(h, h') && SegsKept(h, h')
  {
  }

  lemma CountsShed(h: Store, h': Store)
    requires SameButCounts(h, h')
    ensures Shed(h, h') && SegsKept(h, h')
  {
  }

  lemma ShedTrans(h: Store, h1: Store, h2: Store)
    requires Shed(h, h1) && Shed(h1, h2)
    ensures Shed(h, h2)
  {
  }

  lemma SegsTrans(h: Store, h1: Store, h2: Store)
    requires SegsKept(h, h1) && SegsKept(h1, h2)
    ensures SegsKept(h, h2)
  {
  }

  /** Another object, not a slice. */
  lemma GrownSegs(h: Store, h': Store)
    requires |h'| == |h| + 1 && SameButCounts(h, h'[..|h|]) && !h'[|h|].payload.Slice?
    ensures SegsKept(h, h')
  {
    assert forall i: Ref :: i < |h| ==> h'[..|h|][i] == h'[i];
  }

  /** A value changed in place. */
  lemma ChangedSegs(h: Store, h': Store, x: Ref)
    requires |h'| == |h| && x < |h| && !h'[x].payload.Slice?
    requires forall i: Ref :: i < |h| && i != x ==> h'[i].payload == h[i].payload
    ensures SegsKept(h, h')
  {
  }

  // ---- small steps on held references -------------------------------------

  method RetainAll(m: Machine, xs: seq<Ref>)
    requires Inv(m, None) && forall j :: 0 <= j < |xs| ==> xs[j] < |m.heap| && m.heap[xs[j]].rc > 0
    modifies m
    ensures Inv(m, None)
    ensures m.held == old(m.held) + multiset(xs) && m.kont == old(m.kont)
    ensures SameButCounts(old(m.heap), m.heap) && NoLess(old(m.heap), m.heap)
  {
    hide Good;
    for i := 0 to |xs|
      invariant Inv(m, None)
      invariant m.held == old(m.held) + multiset(xs[..i]) && m.kont == old(m.kont)
      invariant SameButCounts(old(m.heap), m.heap) && NoLess(old(m.heap), m.heap)
    {
      Retain(m, xs[i], None);
      assert xs[..i + 1] == xs[..i] + [xs[i]];
    }
    assert xs[..|xs|] == xs;
  }

  /** No count fell. */
  ghost predicate NoLess(h: Store, h': Store) {
    |h| <= |h'| && forall i :: 0 <= i < |h| ==> h'[i].rc >= h[i].rc
  }

  /** Release a popped frame (not a boundary). */
  method ReleaseFrame(m: Machine, kf: KFrame) returns (ghost log: seq<Ref>)
    requires Inv(m, None) && !kf.KAfterClause? && KRefs(kf) <= m.held
    modifies m
    ensures Inv(m, None)
    ensures m.held == old(m.held) - KRefs(kf) && m.kont == old(m.kont)
    ensures Frees(old(m.heap), m.heap, log)
  {
    hide Exact, Frees, Kinded, SegOk, Intact, SegRefs, SegBounds, KRefs;
    log := m.KFrameRelease(kf);
    assert m.heldBounds == multiset{};
    FreesGood(old(m.heap), m.heap, log, m.kont, m.held, None);
  }

  /** What a caller still holds after a release is still there, unchanged. */
  lemma HeldStays(h: Store, h': Store, log: seq<Ref>, kont: seq<KFrame>, held: multiset<Ref>, x: Ref)
    requires Frees(h, h', log) && Good(h', kont, held, None) && (x in held || x in SegRefs(kont))
    ensures x < |h| == |h'| && h'[x].rc > 0 && h'[x].payload == h[x].payload && !h[x].payload.Freed?
  {
    hide Exact, Kinded, SegOk, Intact, SegRefs, SegBounds;
    assert (SegRefs(kont) + held)[x] > 0;
    StillThere(h, h', log, SegRefs(kont) + held, SegBounds(kont) + multiset{}, [], x);
  }

  lemma HeldCounted(h: Store, kont: seq<KFrame>, held: multiset<Ref>, x: Ref)
    requires Good(h, kont, held, None) && (x in held || x in SegRefs(kont))
    ensures x < |h| && h[x].rc > 0 && !h[x].payload.Freed?
  {
    hide Exact, Kinded, SegOk, Intact, SegRefs, SegBounds;
    assert (SegRefs(kont) + held)[x] > 0;
    RootAlive(h, SegRefs(kont) + held, SegBounds(kont) + multiset{}, [], x);
  }

  // ---- entering a closure -------------------------------------------------

  /** The slots of a fresh activation: the arguments, then empty slots. */
  function RowOf(args: seq<Ref>, n: nat): (row: seq<Option<Ref>>)
    ensures |row| == n
  {
    seq(n, i requires 0 <= i < n => if i < |args| then Some(args[i]) else None)
  }

  /** The arguments are in the leading slots of an activation, in order, and every later
      slot is empty. */
  predicate Leading(p: Payload, args: seq<Ref>) {
    && p.Activation? && |args| <= |p.locals|
    && (forall i :: 0 <= i < |args| ==> p.locals[i] == Some(args[i]))
    && (forall i :: |args| <= i < |p.locals| ==> p.locals[i].None?)
  }

  lemma RowLeads(clo: Ref, args: seq<Ref>, n: nat, tokens: seq<bool>)
    requires |args| <= n
    ensures Leading(Activation(Some(clo), RowOf(args, n), tokens), args)
  {
  }

  lemma {:induction false} RowRefs(args: seq<Ref>, n: nat)
    requires |args| <= n
    ensures Present(RowOf(args, n), None) == multiset(args)
    decreases n
  {
    hide Present;
    if n == 0 {
      EmptyRow();
    } else {
      var row, rest := RowOf(args, n), if |args| == 0 then args else args[1..];
      RowRefs(rest, n - 1);
      assert row[1..] == RowOf(rest, n - 1);
      PresentFirst(row, None);
      OneSlot(row[0]);
      assert |args| > 0 ==> args == [args[0]] + rest;
    }
  }

  lemma EmptyRow()
    ensures Present([], None) == multiset{}
  {
  }

  lemma ActivationRefs(clo: Ref, args: seq<Ref>, n: nat, tokens: seq<bool>, self: Ref)
    requires |args| <= n
    ensures Refs(self, Activation(Some(clo), RowOf(args, n), tokens)) == multiset{clo} + multiset(args)
  {
    hide RowOf;
    RowRefs(args, n);
    var one: seq<Option<Ref>> := [Some(clo)];
    assert Present(one[1..], None) == multiset{};
  }

  /** The token slots of an activation entered with `n` arguments: a slot that took an
      argument is none. */
  function Tokens(layout: seq<bool>, n: nat): (r: seq<bool>)
    ensures |r| == |layout|
  {
    seq(|layout|, i requires 0 <= i < |layout| => i >= n && layout[i])
  }

  lemma ActivationOk(h: Store, clo: Ref, args: seq<Ref>, layout: seq<bool>)
    requires |args| <= |layout| && ValueAt(h, clo) && forall j :: 0 <= j < |args| ==> ValueAt(h, args[j])
    ensures PayloadOk(h, Activation(Some(clo), RowOf(args, |layout|), Tokens(layout, |args|)))
  {
    hide ValueAt;
    forall j | 0 <= j < |layout|
      ensures SlotOk(h, RowOf(args, |layout|)[j], Tokens(layout, |args|)[j])
    {
    }
  }

  /** As many slots as the layout says, the arguments leading, and for tokens just those
      the layout says, but for any that took an argument. */
  predicate LaidOut(p: Payload, args: seq<Ref>, layout: seq<bool>) {
    && Leading(p, args) && |p.locals| == |layout|
    && forall i :: 0 <= i < |layout| ==> (TokenSlot(p, i) <==> i >= |args| && layout[i])
  }

  lemma RowLaidOut(clo: Ref, args: seq<Ref>, layout: seq<bool>)
    requires |args| <= |layout|
    ensures LaidOut(Activation(Some(clo), RowOf(args, |layout|), Tokens(layout, |args|)), args, layout)
  {
    RowLeads(clo, args, |layout|, Tokens(layout, |args|));
  }

  /** A closure whose code exists and has room for `n` arguments. */
  predicate Enterable(p: Payload, n: nat, layouts: seq<seq<bool>>) {
    p.Node? && p.shape.Clos? && p.shape.code < |layouts| && n <= |layouts[p.shape.code]|
  }

  /** A fresh activation of the closure `clo` with `args` in its leading slots,
      owning a reference on each.  `layouts` maps a code to its slots, and says which
      of them are for tokens.  Not a
      closure, no such code, or too few slots is a fault (`ok` false). */
  method EnterClo(m: Machine, clo: Ref, args: seq<Ref>, layouts: seq<seq<bool>>) returns (nf: Ref, code: nat, ok: bool)
    requires Inv(m, None) && ValueAt(m.heap, clo) && m.heap[clo].rc > 0
    requires forall j :: 0 <= j < |args| ==> ValueAt(m.heap, args[j]) && m.heap[args[j]].rc > 0
    modifies m
    ensures Inv(m, None) && m.kont == old(m.kont)
    ensures ok <==> Enterable(old(m.heap)[clo].payload, |args|, layouts)
    ensures ok <==> var p := old(m.heap)[clo].payload; p.Node? && p.shape.Clos? && p.shape.code < |layouts| && |layouts[p.shape.code]| >= |args|
    ensures !ok ==> m.heap == old(m.heap) && m.held == old(m.held)
    ensures ok ==>
              && m.held == old(m.held) + multiset{nf}
              && nf == |old(m.heap)| && |m.heap| == nf + 1 && SameButCounts(old(m.heap), m.heap[..nf])
              && code == old(m.heap)[clo].payload.shape.code
              && m.heap[nf].payload == Activation(Some(clo), RowOf(args, |layouts[code]|), Tokens(layouts[code], |args|))
              && LaidOut(m.heap[nf].payload, args, layouts[code])
  {
    hide Good, Inv, PayloadOk, Refs, RowOf, LaidOut;
    nf, code := 0, 0;
    var p := m.heap[clo].payload;
    ok := Enterable(p, |args|, layouts);
    if ok {
      code := p.shape.code;
      var all := [clo] + args;
      RetainAll(m, all);
      assert multiset(all) == multiset{clo} + multiset(args);
      ActivationRefs(clo, args, |layouts[code]|, Tokens(layouts[code], |args|), |m.heap|);
      ActivationOk(m.heap, clo, args, layouts[code]);
      ghost var h1 := m.heap;
      nf := New(m, Activation(Some(clo), RowOf(args, |layouts[code]|), Tokens(layouts[code], |args|)), None);
      assert m.heap[..nf] == h1;
      assert m.held == old(m.held) + multiset{nf};
      RowLaidOut(clo, args, layouts[code]);
    }
  }

  // ---- cleanups -----------------------------------------------------------

  /** The cleanups of an abandoned slice, queued so the innermost is on top, above
      the value to deliver once they have all run. */
  function Queued(saved: Ref, cs: seq<Ref>): seq<KFrame> {
    [KThunkRet(saved)] + DeferFrames(cs)
  }

  function DeferFrames(cs: seq<Ref>): seq<KFrame> {
    seq(|cs|, i requires 0 <= i < |cs| => KDefer(cs[i]))
  }

  /** Push a frame that owns just the reference `x`. */
  method PushOne(m: Machine, kf: KFrame, x: Ref)
    requires Inv(m, None) && (kf == KThunkRet(x) || kf == KDefer(x)) && m.held[x] > 0 && ValueAt(m.heap, x)
    modifies m
    ensures Inv(m, None)
    ensures m.heap == old(m.heap) && m.kont == old(m.kont) + [kf] && m.held == old(m.held) - multiset{x}
  {
    hide Good;
    Push(m, kf, None);
  }

  lemma TakeOne(held: multiset<Ref>, cs: seq<Ref>, i: nat)
    requires i < |cs| && multiset(cs) <= held
    ensures (held - multiset(cs[..i]))[cs[i]] > 0
    ensures held - multiset(cs[..i]) - multiset{cs[i]} == held - multiset(cs[..i + 1])
  {
    assert cs == cs[..i] + [cs[i]] + cs[i + 1..];
    assert cs[..i + 1] == cs[..i] + [cs[i]];
    assert multiset(cs)[cs[i]] <= held[cs[i]];
    assert multiset(cs)[cs[i]] == multiset(cs[..i])[cs[i]] + 1 + multiset(cs[i + 1..])[cs[i]];
  }

  lemma DeferFramesMore(cs: seq<Ref>, i: nat)
    requires i < |cs|
    ensures DeferFrames(cs[..i + 1]) == DeferFrames(cs[..i]) + [KDefer(cs[i])]
  {
  }

  method PushDefers(m: Machine, cs: seq<Ref>)
    requires Inv(m, None) && multiset(cs) <= m.held && forall j :: 0 <= j < |cs| ==> ValueAt(m.heap, cs[j])
    modifies m
    ensures Inv(m, None)
    ensures m.heap == old(m.heap) && m.kont == old(m.kont) + DeferFrames(cs) && m.held == old(m.held) - multiset(cs)
  {
    hide Good, ValueAt, DeferFrames;
    assert cs[..0] == [];
    assert DeferFrames([]) == [] by { NoDeferFrames(); }
    for i := 0 to |cs|
      invariant Inv(m, None) && m.heap == old(m.heap)
      invariant m.held == old(m.held) - multiset(cs[..i])
      invariant m.kont == old(m.kont) + DeferFrames(cs[..i])
    {
      TakeOne(old(m.held), cs, i);
      PushOne(m, KDefer(cs[i]), cs[i]);
      DeferFramesMore(cs, i);
    }
    assert cs[..|cs|] == cs;
  }

  lemma NoDeferFrames()
    ensures DeferFrames([]) == []
  {
  }

  /** Queue cleanups the caller holds, and the value `v` below them. */
  method RunCleanups(m: Machine, v: Ref, cs: seq<Ref>)
    requires Inv(m, None) && multiset{v} + multiset(cs) <= m.held
    requires ValueAt(m.heap, v) && forall j :: 0 <= j < |cs| ==> ValueAt(m.heap, cs[j])
    modifies m
    ensures Inv(m, None)
    ensures m.heap == old(m.heap) && m.kont == old(m.kont) + Queued(v, cs)
    ensures m.held == old(m.held) - (multiset{v} + multiset(cs))
  {
    hide Good, ValueAt, DeferFrames;
    Peel(m.held, v, multiset(cs));
    PushOne(m, KThunkRet(v), v);
    PushDefers(m, cs);
  }

  /** A clause boundary of slice `s` is reached by the value `v`.

      A slice that was resumed, or that something besides its boundaries still
      owns, is left alone: its cleanups run wherever it ends up running.  A slice
      nobody can resume any more was abandoned: its cleanups are queued here, and
      unit is delivered into them.  (Releasing the boundary and queueing do not
      affect one another; the release comes first here.) */
  method Boundary(m: Machine, s: Ref, v: Ref, unit: Ref) returns (v': Ref, ghost log: seq<Ref>)
    requires Inv(m, None) && |m.kont| > 0 && m.kont[|m.kont| - 1] == KAfterClause(s)
    requires s < |m.heap| && m.heap[s].payload.Slice? && (!m.heap[s].payload.used ==> m.heap[s].payload.seg.Some?)
    requires multiset{v, unit} <= m.held && ValueAt(m.heap, v) && ValueAt(m.heap, unit)
    modifies m
    ensures Inv(m, None) && Frees(old(m.heap), m.heap, log)
    ensures InUse(old(m.heap)[s]) ==>
              v' == v && m.kont == old(m.kont)[..|old(m.kont)| - 1] && m.held == old(m.held)
    ensures !InUse(old(m.heap)[s]) ==>
              && v' == unit && m.held == old(m.held) - multiset{v} + multiset{unit}
              && m.kont == old(m.kont)[..|old(m.kont)| - 1] + Queued(v, Defers(old(m.heap)[s].payload.seg.value))
  {
    hide Good, Frees, Defers, Queued, Counted, SegOk, SegRefs;
    TopBoundary(m.heap, m.kont, m.held);
    var n := |m.kont| - 1;
    if InUse(m.heap[s]) {
      v' := v;
      log := DropFrames(m, n, None);
    } else {
      log := Unwind(m, m.heap[s].payload.seg.value, v, unit);
      v' := unit;
    }
  }

  /** Resumed before, or still owned by something besides its boundaries. */
  predicate InUse(o: Obj)
    requires o.payload.Slice?
  {
    o.payload.used || o.rc > o.nbound
  }

  /** Drop the boundary on top, keeping the cleanups of its slice, and `keep`. */
  method Salvage(m: Machine, seg: seq<KFrame>, keep: seq<Ref>) returns (cs: seq<Ref>, ghost log: seq<Ref>)
    requires Inv(m, None) && |m.kont| > 0 && SegOk(m.heap, seg) && Counted(m.heap, SegRefs(seg))
    requires multiset(keep) <= m.held && forall j :: 0 <= j < |keep| ==> ValueAt(m.heap, keep[j])
    modifies m
    ensures Inv(m, None) && Frees(old(m.heap), m.heap, log)
    ensures cs == Defers(seg) && m.held == old(m.held) + multiset(cs)
    ensures m.kont == old(m.kont)[..|old(m.kont)| - 1]
    ensures forall j :: 0 <= j < |cs| ==> ValueAt(m.heap, cs[j])
    ensures forall j :: 0 <= j < |keep| ==> ValueAt(m.heap, keep[j]) && m.heap[keep[j]].rc > 0
  {
    hide Good, Frees, Defers, Counted, SegOk, SegRefs, ValueAt;
    cs := SegmentCleanups(m, seg, None);
    ghost var h1 := m.heap;
    FreesNothing(old(m.heap), h1);
    SameValues(old(m.heap), h1, keep);
    log := DropFrames(m, |m.kont| - 1, None);
    FreesCompose(old(m.heap), h1, m.heap, [], log);
    assert [] + log == log;
    AllHeld(cs, m.held);
    AllHeld(keep, m.held);
    CleanupsStay(h1, m.heap, log, m.kont, m.held, cs);
    CleanupsStay(h1, m.heap, log, m.kont, m.held, keep);
  }

  /** Drop the boundary on top and queue the cleanups of its abandoned slice. */
  method Unwind(m: Machine, seg: seq<KFrame>, v: Ref, unit: Ref) returns (ghost log: seq<Ref>)
    requires Inv(m, None) && |m.kont| > 0 && SegOk(m.heap, seg) && Counted(m.heap, SegRefs(seg))
    requires multiset{v, unit} <= m.held && ValueAt(m.heap, v) && ValueAt(m.heap, unit)
    modifies m
    ensures Inv(m, None) && Frees(old(m.heap), m.heap, log)
    ensures m.held == old(m.held) - multiset{v} + multiset{unit}
    ensures m.kont == old(m.kont)[..|old(m.kont)| - 1] + Queued(v, Defers(seg))
  {
    hide Good, Frees, Defers, Queued, Counted, SegOk, SegRefs, ValueAt;
    var keep := [v, unit];
    assert multiset(keep) == multiset{v, unit};
    var cs: seq<Ref>;
    cs, log := Salvage(m, seg, keep);
    assert ValueAt(m.heap, keep[0]);
    ghost var h2 := m.heap;
    assert (multiset{v} + multiset(cs))[unit] < m.held[unit];
    RunCleanups(m, v, cs);
    HeldCounted(m.heap, m.kont, m.held, unit);
    Retain(m, unit, None);
    FreesNothing(h2, m.heap);
    FreesCompose(old(m.heap), h2, m.heap, log, []);
    assert log + [] == log;
    assert m.held == old(m.held) - multiset{v} + multiset{unit};
  }

  lemma AllHeld(xs: seq<Ref>, held: multiset<Ref>)
    requires multiset(xs) <= held
    ensures forall j :: 0 <= j < |xs| ==> xs[j] in held
  {
    forall j | 0 <= j < |xs|
      ensures xs[j] in held
    {
      assert xs[j] in multiset(xs);
    }
  }

  lemma SameValues(h: Store, h': Store, xs: seq<Ref>)
    requires SameButCounts(h, h') && forall j :: 0 <= j < |xs| ==> ValueAt(h, xs[j])
    ensures forall j :: 0 <= j < |xs| ==> ValueAt(h', xs[j])
  {
  }

  lemma TopBoundary(h: Store, kont: seq<KFrame>, held: multiset<Ref>)
    requires Good(h, kont, held, None) && |kont| > 0 && kont[|kont| - 1].KAfterClause?
    ensures var s := kont[|kont| - 1].res;
            && s < |h| && h[s].payload.Slice?
            && (!h[s].payload.used ==>
                  && h[s].payload.seg.Some?
                  && SegOk(h, h[s].payload.seg.value) && Counted(h, SegRefs(h[s].payload.seg.value)))
  {
    hide Exact, Intact, SegRefs, SegBounds;
    var s := kont[|kont| - 1].res;
    assert FrameOk(h, kont[|kont| - 1]);
    assert PayloadOk(h, h[s].payload);
    PayloadCounted(h, kont, held, None, s);
  }

  lemma CleanupsStay(h: Store, h': Store, log: seq<Ref>, kont: seq<KFrame>, held: multiset<Ref>, cs: seq<Ref>)
    requires Frees(h, h', log) && Good(h', kont, held, None)
    requires forall j :: 0 <= j < |cs| ==> cs[j] in held && ValueAt(h, cs[j])
    ensures forall j :: 0 <= j < |cs| ==> ValueAt(h', cs[j]) && h'[cs[j]].rc > 0
  {
    hide Frees, Good;
    forall j | 0 <= j < |cs|
      ensures ValueAt(h', cs[j]) && h'[cs[j]].rc > 0
    {
      assert ValueAt(h, cs[j]);
      HeldStays(h, h', log, kont, held, cs[j]);
    }
  }

  // ---- delivering a value -------------------------------------------------

  /** Where control goes once a value has been handed over: the run is finished
      with a value, an activation continues, or a closure is entered.  `Fault` is a
      runtime fault.  `SelfThunk` is a thunk stored in the box it is a thunk of,
      which no program builds: the code counts that edge when it is released but
      not when it is made, so the model stops there. */
  datatype Next =
    | Finished(value: Ref)
    | Continue(frame: Ref, cont: nat)
    | Enter(frame: Ref, code: nat)
    | Fault
    | SelfThunk

  /** The reference the machine holds on where control goes. */
  function Carried(r: Next): multiset<Ref> {
    match r
    case Finished(v) => multiset{v}
    case Continue(f, _) => multiset{f}
    case Enter(f, _) => multiset{f}
    case _ => multiset{}
  }

  predicate Stops(r: Next) {
    r.Fault? || r.SelfThunk?
  }

  /** Patch the box in a slot of `f` with `v`, and give `v` up. */
  method IntoBox(m: Machine, f: Ref, slot: nat, box: Ref, v: Ref)
    requires Inv(m, None) && multiset{f, v} <= m.held && InSlot(m.heap, f, slot, box)
    requires ValueAt(m.heap, v) && m.heap[v].payload != Link(box)
    modifies m
    ensures Inv(m, None) && m.kont == old(m.kont) && m.held == old(m.held) - multiset{v}
    ensures f < |m.heap| && m.heap[f].payload == old(m.heap)[f].payload
    ensures box < |m.heap| && m.heap[box].payload == old(m.heap)[v].payload
    ensures SegsKept(old(m.heap), m.heap)
  {
    hide Good, Frees, SegsKept;
    ghost var h0 := m.heap;
    BoxValue(m, f, slot, box);
    ghost var log, mid := BackPatch(m, f, slot, box, v);
    PatchedSegs(h0, box, v, log, mid, m.heap);
    ghost var h1 := m.heap;
    ghost var more := Drop(m, v, None);
    FreesShed(h1, m.heap, more);
    SegsTrans(h0, h1, m.heap);
    Survives(h1, m, more, f);
    BoxValue(m, f, slot, box);
    NotFreedSame(h1, m.heap, more, box);
  }

  lemma BoxValue(m: Machine, f: Ref, slot: nat, box: Ref)
    requires Inv(m, None) && InSlot(m.heap, f, slot, box)
    ensures box != f && ValueAt(m.heap, box)
  {
    hide Good;
    BoxInSlot(m.heap, m.kont, m.held, f, slot);
  }

  lemma PatchedSegs(h: Store, box: Ref, v: Ref, log: seq<Ref>, mid: Store, h': Store)
    requires box < |h'| == |mid| && ValueAt(h, v) && ValueAt(h, box) && h'[box].payload == h[v].payload
    requires if box == v then mid == h' == h && log == []
             else Frees(Emptied(h, box), mid, log) && SameButCounts(mid[box := h'[box]], h')
    ensures SegsKept(h, h')
  {
    if box != v {
      FreesShed(Emptied(h, box), mid, log);
    }
  }

  lemma Survives(h: Store, m: Machine, log: seq<Ref>, x: Ref)
    requires Inv(m, None) && Frees(h, m.heap, log) && x in m.held
    ensures x < |h| == |m.heap| && m.heap[x].payload == h[x].payload
  {
    hide Good, Frees;
    HeldStays(h, m.heap, log, m.kont, m.held, x);
  }

  method IntoSlot(m: Machine, f: Ref, slot: nat, v: Ref)
    requires Inv(m, None) && m.held[v] > 0 && ValueAt(m.heap, v)
    requires f < |m.heap| && m.heap[f].payload.Activation? && ValueSlot(m.heap[f].payload, slot)
    requires m.heap[f].payload.locals[slot].None?
    modifies m
    ensures Inv(m, None) && m.kont == old(m.kont) && m.held == old(m.held) - multiset{v}
    ensures var p := old(m.heap)[f].payload; f < |m.heap| && m.heap[f].payload == p.(locals := p.locals[slot := Some(v)])
    ensures SegsKept(old(m.heap), m.heap)
  {
    hide Good, SegsKept;
    var was := PutSlot(m, f, slot, Some(v));
    ChangedSegs(old(m.heap), m.heap, f);
  }

  /** The slot of `f` took the value `v`: it holds it, or its box has its contents. */
  ghost predicate Received(h: Store, h': Store, f: Ref, slot: nat, v: Ref) {
    && f < |h| && f < |h'| && v < |h| && h[f].payload.Activation? && slot < |h[f].payload.locals|
    && (h[f].payload.locals[slot].None? ==>
          h'[f].payload == h[f].payload.(locals := h[f].payload.locals[slot := Some(v)]))
    && (h[f].payload.locals[slot].Some? ==>
          && h'[f].payload == h[f].payload && h[f].payload.locals[slot].value < |h'|
          && h'[h[f].payload.locals[slot].value].payload == h[v].payload)
  }

  /** The frame would store in a box a thunk of that box. */
  predicate TiesItself(h: Store, kf: KFrame, v: Ref) {
    && kf.KRet? && kf.frame < |h| && v < |h| && h[kf.frame].payload.Activation?
    && kf.slot < |h[kf.frame].payload.locals|
    && var to := h[kf.frame].payload.locals[kf.slot]; to.Some? && h[v].payload == Link(to.value)
  }

  /** A return frame takes `v`: an empty slot adopts the reference, a box is
      patched in place.  The suspended activation continues. */
  method ToActivation(m: Machine, v: Ref) returns (r: Next)
    requires Inv(m, None) && |m.kont| > 0 && m.kont[|m.kont| - 1].KRet?
    requires m.held[v] > 0 && ValueAt(m.heap, v)
    modifies m
    ensures !Stops(r) ==>
              && Inv(m, None) && m.kont == old(m.kont)[..|old(m.kont)| - 1]
              && r == Continue(old(m.kont)[|old(m.kont)| - 1].frame, old(m.kont)[|old(m.kont)| - 1].cont)
              && m.held == old(m.held) - multiset{v} + Carried(r)
              && Received(old(m.heap), m.heap, r.frame, old(m.kont)[|old(m.kont)| - 1].slot, v)
              && SegsKept(old(m.heap), m.heap)
    ensures !r.Fault? && (r.SelfThunk? <==> TiesItself(old(m.heap), old(m.kont)[|old(m.kont)| - 1], v))
  {
    hide Good, Inv, SegsKept;
    assert Inv(m, None);
    var kf := Pop(m, None);
    var f, slot := kf.frame, kf.slot;
    match m.heap[f].payload.locals[slot] {
      case None =>
        IntoSlot(m, f, slot, v);
      case Some(box) =>
        if m.heap[v].payload == Link(box) {
          return SelfThunk;
        }
        IntoBox(m, f, slot, box, v);
    }
    r := Continue(f, kf.cont);
    assert m.held == old(m.held) - multiset{v} + multiset{f};
  }

  lemma InHand(m: Machine, x: Ref)
    requires Inv(m, None) && x in m.held
    ensures x < |m.heap| && m.heap[x].rc > 0
  {
    hide Good;
    HeldCounted(m.heap, m.kont, m.held, x);
  }

  function CodeOf(p: Payload): nat {
    if p.Node? && p.shape.Clos? then p.shape.code else 0
  }

  /** Control is in a fresh activation of `clo`, on `args`. */
  ghost predicate Activated(h: Store, r: Next, clo: Ref, code: nat, args: seq<Ref>, layouts: seq<seq<bool>>) {
    && r.Enter? && r.code == code && code < |layouts| && |args| <= |layouts[code]| && r.frame < |h|
    && h[r.frame].payload == Activation(Some(clo), RowOf(args, |layouts[code]|), Tokens(layouts[code], |args|))
  }

  lemma ActivatedLeads(h: Store, r: Next, clo: Ref, code: nat, args: seq<Ref>, layouts: seq<seq<bool>>)
    requires Activated(h, r, clo, code, args, layouts)
    ensures r.Enter? && r.frame < |h| && Leading(h[r.frame].payload, args) && h[r.frame].payload.clos == Some(clo)
  {
    hide RowOf, Leading;
    RowLeads(clo, args, |layouts[code]|, Tokens(layouts[code], |args|));
  }

  /** Enter a closure the machine holds on its stack frame `kf`, passing the value
      `v` (or nothing); the frame is released. */
  method EnterFrom(m: Machine, kf: KFrame, clo: Ref, args: seq<Ref>, layouts: seq<seq<bool>>) returns (r: Next)
    requires Inv(m, None) && !kf.KAfterClause? && clo in KRefs(kf)
    requires KRefs(kf) + multiset(args) <= m.held && ValueAt(m.heap, clo)
    requires forall j :: 0 <= j < |args| ==> ValueAt(m.heap, args[j])
    modifies m
    ensures !Stops(r) ==>
              Inv(m, None) && m.kont == old(m.kont) && r.Enter? && m.held == old(m.held) - KRefs(kf) + Carried(r)
              && Activated(m.heap, r, clo, CodeOf(old(m.heap)[clo].payload), args, layouts) && SegsKept(old(m.heap), m.heap)
    ensures !r.SelfThunk? && (r.Fault? <==> !Enterable(old(m.heap)[clo].payload, |args|, layouts))
  {
    hide Good, Frees, Inv, KRefs, ValueAt, RowOf, SegsKept;
    ghost var h := m.heap;
    assert clo in KRefs(kf) + multiset(args);
    InHand(m, clo);
    forall j | 0 <= j < |args|
      ensures args[j] < |m.heap| && m.heap[args[j]].rc > 0
    {
      assert args[j] in multiset(args);
      InHand(m, args[j]);
    }
    ghost var h0 := m.held;
    var nf, code, ok := EnterClo(m, clo, args, layouts);
    if !ok {
      return Fault;
    }
    GrownSegs(h, m.heap);
    ghost var h1 := m.heap;
    ghost var log := ReleaseFrame(m, kf);
    r := Enter(nf, code);
    assert m.held == h0 - KRefs(kf) + multiset{nf};
    FreesShed(h1, m.heap, log);
    SegsTrans(h, h1, m.heap);
    assert nf in m.held;
    Survives(h1, m, log, nf);
  }

  predicate CanEnter(h: Store, clo: Ref, n: nat, layouts: seq<seq<bool>>) {
    clo < |h| && Enterable(h[clo].payload, n, layouts)
  }

  /** Control has moved to the closure `clo` of the heap before, on `args`. */
  ghost predicate HandedTo(h: Store, h': Store, r: Next, clo: Ref, args: seq<Ref>, layouts: seq<seq<bool>>) {
    && CanEnter(h, clo, |args|, layouts) && r.Enter?
    && Activated(h', r, clo, CodeOf(h[clo].payload), args, layouts) && SegsKept(h, h')
  }

  lemma StillActivated(h: Store, h': Store, r: Next, clo: Ref, code: nat, args: seq<Ref>, layouts: seq<seq<bool>>)
    requires Activated(h, r, clo, code, args, layouts) && r.frame < |h'| && h'[r.frame].payload == h[r.frame].payload
    ensures Activated(h', r, clo, code, args, layouts)
  {
  }

  /** A prompt's body finished with `v`: its value clause is entered on `v`. */
  method ToElse(m: Machine, v: Ref, layouts: seq<seq<bool>>) returns (r: Next)
    requires Inv(m, None) && |m.kont| > 0 && m.kont[|m.kont| - 1].KPrompt?
    requires m.held[v] > 0 && ValueAt(m.heap, v)
    modifies m
    ensures !Stops(r) ==>
              && Inv(m, None) && m.kont == old(m.kont)[..|old(m.kont)| - 1]
              && m.held == old(m.held) - multiset{v} + Carried(r)
              && HandedTo(old(m.heap), m.heap, r, old(m.kont)[|old(m.kont)| - 1].els, [v], layouts)
    ensures !r.SelfThunk? && (r.Fault? <==> !CanEnter(old(m.heap), old(m.kont)[|old(m.kont)| - 1].els, 1, layouts))
  {
    hide Good, Frees, Inv, Activated, SegsKept, Enterable;
    ghost var h0 := m.heap;
    var kf := Pop(m, None);
    r := EnterFrom(m, kf, kf.els, [v], layouts);
    if !Stops(r) {
      ghost var h1 := m.heap;
      ghost var more := Drop(m, v, None);
      assert m.held == old(m.held) - multiset{v} + Carried(r);
      FreesShed(h1, m.heap, more);
      SegsTrans(h0, h1, m.heap);
      assert r.frame in m.held;
      Survives(h1, m, more, r.frame);
      StillActivated(h1, m.heap, r, kf.els, CodeOf(h0[kf.els].payload), [v], layouts);
    }
  }

  /** `v` completes a scope with a cleanup: the cleanup is entered, above `v`. */
  method ToCleanup(m: Machine, v: Ref, layouts: seq<seq<bool>>) returns (r: Next)
    requires Inv(m, None) && |m.kont| > 0 && m.kont[|m.kont| - 1].KDefer?
    requires m.held[v] > 0 && ValueAt(m.heap, v)
    modifies m
    ensures !Stops(r) ==>
              && Inv(m, None) && m.kont == old(m.kont)[..|old(m.kont)| - 1] + [KThunkRet(v)]
              && m.held == old(m.held) - multiset{v} + Carried(r)
              && HandedTo(old(m.heap), m.heap, r, old(m.kont)[|old(m.kont)| - 1].cleanup, [], layouts)
    ensures !r.SelfThunk? && (r.Fault? <==> !CanEnter(old(m.heap), old(m.kont)[|old(m.kont)| - 1].cleanup, 0, layouts))
  {
    hide Good, Frees, Inv, Activated, SegsKept, Enterable;
    var kf := Pop(m, None);
    PushOne(m, KThunkRet(v), v);
    r := EnterFrom(m, kf, kf.cleanup, [], layouts);
    if !Stops(r) {
      assert m.held == old(m.held) - multiset{v} + Carried(r);
    }
  }

  /** `v` is dropped for the value saved on the stack. */
  method ToSaved(m: Machine, v: Ref) returns (v': Ref, ghost log: seq<Ref>)
    requires Inv(m, None) && |m.kont| > 0 && m.kont[|m.kont| - 1].KThunkRet? && m.held[v] > 0
    modifies m
    ensures Inv(m, None) && m.kont == old(m.kont)[..|old(m.kont)| - 1]
    ensures v' == old(m.kont)[|old(m.kont)| - 1].saved && m.held == old(m.held) - multiset{v} + multiset{v'}
    ensures Frees(old(m.heap), m.heap, log)
    ensures ValueAt(m.heap, v')
  {
    hide Good, Frees, Inv;
    var kf := Pop(m, None);
    v' := kf.saved;
    ghost var h1 := m.heap;
    log := Drop(m, v, None);
    assert m.held == old(m.held) - multiset{v} + multiset{v'};
    Survivor(h1, m, log, v');
  }

  /** A held value survives a release. */
  lemma Survivor(h: Store, m: Machine, log: seq<Ref>, x: Ref)
    requires Inv(m, None) && Frees(h, m.heap, log) && x in m.held
    requires ValueAt(h, x)
    ensures ValueAt(m.heap, x)
  {
    hide Good, Frees;
    HeldStays(h, m.heap, log, m.kont, m.held, x);
  }

  /** The cleanups of a slice that was never captured are reached: they are queued
      exactly as those of an abandoned captured slice are. */
  method ToCleanups(m: Machine, v: Ref, unit: Ref)
    requires Inv(m, None) && |m.kont| > 0 && m.kont[|m.kont| - 1].KCleanups?
    requires multiset{v, unit} <= m.held && ValueAt(m.heap, v) && ValueAt(m.heap, unit)
    modifies m
    ensures Inv(m, None)
    ensures m.kont == old(m.kont)[..|old(m.kont)| - 1] + Queued(v, old(m.kont)[|old(m.kont)| - 1].cleanups)
    ensures m.held == old(m.held) - multiset{v} + multiset{unit}
    ensures SameButCounts(old(m.heap), m.heap)
  {
    hide Good, Inv, Queued, ValueAt;
    ghost var held := m.held;
    var kf := Pop(m, None);
    assert m.held == held + multiset(kf.cleanups);
    UnitStays(held, v, unit, multiset(kf.cleanups));
    RunCleanups(m, v, kf.cleanups);
    InHand(m, unit);
    Retain(m, unit, None);
  }

  lemma UnitStays(held: multiset<Ref>, v: Ref, unit: Ref, cs: multiset<Ref>)
    requires multiset{v, unit} <= held
    ensures multiset{v} + cs <= held + cs && held + cs - (multiset{v} + cs) == held - multiset{v}
    ensures unit in held - multiset{v}
  {
    assert multiset{v, unit}[unit] <= held[unit];
  }

  /** How much settling is left before control can move: nothing once the top frame
      takes the value, otherwise the frames, those that queue cleanups thrice. */
  function Unsettled(kont: seq<KFrame>): nat {
    if |kont| == 0 || kont[|kont| - 1].KRet? || kont[|kont| - 1].KPrompt? || kont[|kont| - 1].KDefer? then 0
    else 1 + Weight(kont)
  }

  function Weight(kont: seq<KFrame>): nat {
    if |kont| == 0 then 0
    else Weight(kont[..|kont| - 1]) + (if kont[|kont| - 1].KAfterClause? || kont[|kont| - 1].KCleanups? then 3 else 1)
  }

  lemma PoppedSettles(kont: seq<KFrame>)
    requires Unsettled(kont) > 0
    ensures Unsettled(kont[..|kont| - 1]) < Unsettled(kont)
  {
  }

  lemma QueuedSettles(kont: seq<KFrame>, v: Ref, cs: seq<Ref>)
    requires |kont| > 0 && (kont[|kont| - 1].KAfterClause? || kont[|kont| - 1].KCleanups?)
    ensures Unsettled(kont[..|kont| - 1] + Queued(v, cs)) < Unsettled(kont)
  {
    var k := kont[..|kont| - 1] + Queued(v, cs);
    if |cs| == 0 {
      assert k == kont[..|kont| - 1] + [KThunkRet(v)];
      assert k[..|k| - 1] == kont[..|kont| - 1];
    } else {
      assert k[|k| - 1] == KDefer(cs[|cs| - 1]);
    }
  }

  /** `k'` has the frames of `k` up to `base`, and maybe more. */
  predicate SameBelow(k: seq<KFrame>, k': seq<KFrame>, base: nat) {
    base <= |k| && base <= |k'| && k'[..base] == k[..base]
  }

  /** A point of a delivery: the heap, the stack, and the value in flight. */
  datatype Moment = Moment(heap: Store, kont: seq<KFrame>, value: Ref)

  /** One frame settles without moving control.  A saved value replaces the one in
      flight.  A boundary whose slice is in use is passed by; past any other, and past
      the cleanups of an uncaptured slice, the cleanups are queued above the value,
      innermost on top, and unit is in flight. */
  ghost predicate SettleStep(a: Moment, b: Moment, unit: Ref) {
    && |a.kont| > 0 && !Takes(a.kont[|a.kont| - 1]) && Shed(a.heap, b.heap)
    && var kf, below := a.kont[|a.kont| - 1], a.kont[..|a.kont| - 1];
       && (kf.KThunkRet? ==> b.kont == below && b.value == kf.saved)
       && (kf.KAfterClause? ==>
             && kf.res < |a.heap| && a.heap[kf.res].payload.Slice?
             && (InUse(a.heap[kf.res]) ==> b.kont == below && b.value == a.value)
             && (!InUse(a.heap[kf.res]) ==>
                   && a.heap[kf.res].payload.seg.Some? && b.value == unit
                   && b.kont == below + Queued(a.value, Defers(a.heap[kf.res].payload.seg.value))
                   && Gone(b.heap, b.kont, kf.res)))
       && (kf.KCleanups? ==> b.kont == below + Queued(a.value, kf.cleanups) && b.value == unit)
  }

  /** The slice was freed, unless another boundary names it. */
  ghost predicate Gone(h: Store, kont: seq<KFrame>, s: Ref) {
    s < |h| && (h[s].payload.Freed? || AllBounds(h)[s] + SegBounds(kont)[s] > 0)
  }

  ghost predicate Settles(path: seq<Moment>, unit: Ref) {
    |path| > 0 && forall k :: 0 < k < |path| ==> SettledAt(path, k, unit)
  }

  ghost predicate SettledAt(path: seq<Moment>, k: nat, unit: Ref)
    requires 0 < k < |path|
  {
    SettleStep(path[k - 1], path[k], unit)
  }

  lemma SettlesOn(path: seq<Moment>, b: Moment, unit: Ref)
    requires Settles(path, unit) && SettleStep(path[|path| - 1], b, unit)
    ensures Settles(path + [b], unit)
  {
    hide SettleStep;
    var longer := path + [b];
    forall k | 0 < k < |longer|
      ensures SettledAt(longer, k, unit)
    {
      assert k < |path| ==> SettledAt(path, k, unit);
    }
  }

  // ---- boundaries ---------------------------------------------------------

  /** Nobody can resume slice `s`, and nobody has: no resumption names it, and no
      reference to it is in flight. */
  ghost predicate Forsaken(h: Store, held: multiset<Ref>, s: Ref) {
    s < |h| && h[s].payload.Slice? && !h[s].payload.used && Cells(h, s) == 0 && held[s] == 0
  }

  /** How the boundary on top is settled: the cleanups of a forsaken slice's `defer`
      frames are queued over the value, with unit in flight; otherwise the value goes on
      unchanged.  It does not matter how many boundaries the slice has. */
  ghost predicate RightlyPassed(a: Moment, b: Moment, held: multiset<Ref>, unit: Ref) {
    |a.kont| > 0 && a.kont[|a.kont| - 1].KAfterClause? ==>
      var s, below := a.kont[|a.kont| - 1].res, a.kont[..|a.kont| - 1];
      if Forsaken(a.heap, held, s) then
        a.heap[s].payload.seg.Some? && b.value == unit && QueuesOver(a.heap[s].payload.seg.value, below, a.value, b.kont)
      else b.kont == below && b.value == a.value
  }

  /** The stack is `below`, the saved value, and the `defer` frames' cleanups, in order. */
  ghost predicate QueuesOver(seg: seq<KFrame>, below: seq<KFrame>, saved: Ref, kont: seq<KFrame>) {
    exists cs: seq<Ref> :: CleanupsOf(seg, cs) && Stacks(below, saved, cs, kont)
  }

  predicate Stacks(below: seq<KFrame>, saved: Ref, cs: seq<Ref>, kont: seq<KFrame>) {
    var n := |below|;
    && |kont| == n + 1 + |cs| && kont[..n] == below && kont[n] == KThunkRet(saved)
    && forall j :: 0 <= j < |cs| ==> kont[n + 1 + j] == KDefer(cs[j])
  }

  lemma QueuedStacks(below: seq<KFrame>, saved: Ref, cs: seq<Ref>)
    ensures Stacks(below, saved, cs, below + Queued(saved, cs))
  {
  }

  /** What the counts say of a slice is who can resume it. */
  lemma InUseExactly(h: Store, kont: seq<KFrame>, held: multiset<Ref>, s: Ref)
    requires Good(h, kont, held, None) && s < |h| && h[s].payload.Slice?
    ensures InUse(h[s]) <==> !Forsaken(h, held, s)
  {
    hide AllRefs, AllBounds, Kinded, SegOk, Intact, SegRefs, SegBounds, Cells;
    SliceCounts(h, kont, held, multiset{}, [], s);
  }

  lemma BoundaryPassed(a: Moment, b: Moment, held: multiset<Ref>, unit: Ref)
    requires Good(a.heap, a.kont, held, None) && SettleStep(a, b, unit)
    ensures RightlyPassed(a, b, held, unit)
  {
    hide Good, Forsaken, Shed, Gone, Defers, Queued, InUse, CleanupsOf, Stacks;
    if a.kont[|a.kont| - 1].KAfterClause? {
      var s, below := a.kont[|a.kont| - 1].res, a.kont[..|a.kont| - 1];
      InUseExactly(a.heap, a.kont, held, s);
      if !InUse(a.heap[s]) {
        var cs := Defers(a.heap[s].payload.seg.value);
        DefersInOrder(a.heap[s].payload.seg.value);
        QueuedStacks(below, a.value, cs);
      }
    }
  }

  ghost predicate PassedAt(path: seq<Moment>, k: nat, held: multiset<Ref>, unit: Ref)
    requires 0 < k < |path|
  {
    RightlyPassed(path[k - 1], path[k], held + multiset{path[k - 1].value}, unit)
  }

  /** Every boundary on the way of a delivery, which meanwhile holds `held` and the value
      in flight. */
  ghost predicate AllPassed(path: seq<Moment>, held: multiset<Ref>, unit: Ref) {
    forall k :: 0 < k < |path| ==> PassedAt(path, k, held, unit)
  }

  lemma PassesOn(path: seq<Moment>, b: Moment, held: multiset<Ref>, unit: Ref)
    requires |path| > 0 && AllPassed(path, held, unit)
    requires RightlyPassed(path[|path| - 1], b, held + multiset{path[|path| - 1].value}, unit)
    ensures AllPassed(path + [b], held, unit)
  {
    hide RightlyPassed;
    var longer := path + [b];
    forall k | 0 < k < |longer|
      ensures PassedAt(longer, k, held, unit)
    {
      assert k < |path| ==> PassedAt(path, k, held, unit);
    }
  }

  /** Settle the top frame. */
  method Settle(m: Machine, v: Ref, unit: Ref, ghost base: nat) returns (v': Ref)
    requires Inv(m, None) && base < |m.kont| && Unsettled(m.kont) > 0
    requires multiset{v, unit} <= m.held && ValueAt(m.heap, v) && ValueAt(m.heap, unit)
    modifies m
    ensures Inv(m, None) && SameBelow(old(m.kont), m.kont, base) && Unsettled(m.kont) < Unsettled(old(m.kont))
    ensures m.held == old(m.held) - multiset{v} + multiset{v'}
    ensures ValueAt(m.heap, v') && ValueAt(m.heap, unit)
    ensures SettleStep(Moment(old(m.heap), old(m.kont), v), Moment(m.heap, m.kont, v'), unit)
    ensures RightlyPassed(Moment(old(m.heap), old(m.kont), v), Moment(m.heap, m.kont, v'), old(m.held), unit)
  {
    hide Good, Frees, Inv, Queued, Weight, Defers, Shed, SegsKept, RightlyPassed;
    GoodOf(m);
    var n := |m.kont| - 1;
    ghost var k0, h0 := m.kont, m.heap;
    var kf := m.kont[n];
    ghost var log: seq<Ref> := [];
    if kf.KThunkRet? {
      v', log := ToSaved(m, v);
      PoppedSettles(k0);
      Survivor(h0, m, log, unit);
      FreesShed(h0, m.heap, log);
    } else if kf.KAfterClause? {
      v' := SettleBoundary(m, kf.res, v, unit);
    } else {
      ToCleanups(m, v, unit);
      QueuedSettles(k0, v, kf.cleanups);
      CountsShed(h0, m.heap);
      v' := unit;
    }
    BoundaryPassed(Moment(h0, k0, v), Moment(m.heap, m.kont, v'), old(m.held), unit);
  }

  method SettleBoundary(m: Machine, s: Ref, v: Ref, unit: Ref) returns (v': Ref)
    requires Inv(m, None) && |m.kont| > 0 && m.kont[|m.kont| - 1] == KAfterClause(s)
    requires multiset{v, unit} <= m.held && ValueAt(m.heap, v) && ValueAt(m.heap, unit)
    modifies m
    ensures Inv(m, None) && Unsettled(m.kont) < Unsettled(old(m.kont))
    ensures |old(m.kont)| - 1 <= |m.kont| && m.kont[..|old(m.kont)| - 1] == old(m.kont)[..|old(m.kont)| - 1]
    ensures m.held == old(m.held) - multiset{v} + multiset{v'}
    ensures ValueAt(m.heap, v') && ValueAt(m.heap, unit)
    ensures SettleStep(Moment(old(m.heap), old(m.kont), v), Moment(m.heap, m.kont, v'), unit)
  {
    hide Good, Frees, Inv, Weight, Defers, Shed, SegsKept, Unsettled, DeferFrames, Gone;
    ghost var k0, h0, held0 := m.kont, m.heap, m.held;
    GoodOf(m);
    TopSlice(m);
    ghost var log;
    v', log := Boundary(m, s, v, unit);
    FreesShed(h0, m.heap, log);
    if InUse(h0[s]) {
      PoppedBoundary(k0);
      Survivor(h0, m, log, v);
    } else {
      QueuedSettles(k0, v, Defers(h0[s].payload.seg.value));
      GoodOf(m);
      AbandonedGone(h0, k0, held0, m.heap, m.kont, m.held, s, unit);
    }
    Survivor(h0, m, log, unit);
  }

  /** An abandoned slice has no owner left but boundaries. */
  lemma AbandonedGone(h: Store, k: seq<KFrame>, held: multiset<Ref>, h': Store, k': seq<KFrame>, held': multiset<Ref>, s: Ref, unit: Ref)
    requires Good(h, k, held, None) && Good(h', k', held', None) && Shed(h, h')
    requires s < |h| && h[s].payload.Slice? && !InUse(h[s]) && ValueAt(h, unit)
    requires held'[s] <= held[s] + multiset{unit}[s]
    ensures Gone(h', k', s)
  {
    hide Exact, Kinded, SegOk, Intact, SegRefs, SegBounds, Cells;
    if !h'[s].payload.Freed? {
      SliceCounts(h, k, held, multiset{}, [], s);
      SliceCounts(h', k', held', multiset{}, [], s);
      FewerCells(h, h', s);
      NotDead(h', k', held', s);
    }
  }

  lemma NotDead(h: Store, k: seq<KFrame>, held: multiset<Ref>, x: Ref)
    requires Good(h, k, held, None) && x < |h| && !h[x].payload.Freed?
    ensures h[x].rc > 0
  {
    hide AllRefs, AllBounds, Kinded, SegOk, Intact, SegRefs, SegBounds;
  }

  lemma {:induction false} FewerCells(h: Store, h': Store, s: Ref)
    requires Shed(h, h')
    ensures Cells(h', s) <= Cells(h, s)
  {
    if |h| > 0 {
      FewerCells(h[..|h| - 1], h'[..|h| - 1], s);
    }
  }

  lemma PoppedBoundary(kont: seq<KFrame>)
    requires |kont| > 0 && kont[|kont| - 1].KAfterClause?
    ensures Unsettled(kont[..|kont| - 1]) < Unsettled(kont)
  {
    PoppedSettles(kont);
  }

  lemma TopSlice(m: Machine)
    requires Inv(m, None) && |m.kont| > 0 && m.kont[|m.kont| - 1].KAfterClause?
    ensures var s := m.kont[|m.kont| - 1].res;
            && s < |m.heap| && m.heap[s].payload.Slice?
            && (!m.heap[s].payload.used ==> m.heap[s].payload.seg.Some?)
  {
    hide Good;
    TopBoundary(m.heap, m.kont, m.held);
  }

  /** The top frame took the value and control moved: a suspended activation continues
      with the value in its slot, a prompt's value clause is entered on it, or a cleanup
      is entered above it. */
  ghost predicate Handed(a: Moment, h': Store, k': seq<KFrame>, r: Next, layouts: seq<seq<bool>>) {
    && |a.kont| > 0 && SegsKept(a.heap, h')
    && var kf, below := a.kont[|a.kont| - 1], a.kont[..|a.kont| - 1];
       && Takes(kf)
       && (kf.KRet? ==> r == Continue(kf.frame, kf.cont) && k' == below && Received(a.heap, h', kf.frame, kf.slot, a.value))
       && (kf.KPrompt? ==> k' == below && HandedTo(a.heap, h', r, kf.els, [a.value], layouts))
       && (kf.KDefer? ==> k' == below + [KThunkRet(a.value)] && HandedTo(a.heap, h', r, kf.cleanup, [], layouts))
  }

  /** The closure a prompt or a cleanup names cannot be entered. */
  predicate CannotTake(h: Store, kf: KFrame, layouts: seq<seq<bool>>) {
    (kf.KPrompt? && !CanEnter(h, kf.els, 1, layouts)) || (kf.KDefer? && !CanEnter(h, kf.cleanup, 0, layouts))
  }

  /** The top frame takes the value and control moves. */
  method HandOver(m: Machine, v: Ref, layouts: seq<seq<bool>>, ghost base: nat) returns (r: Next)
    requires Inv(m, None) && base < |m.kont| && Unsettled(m.kont) == 0
    requires m.held[v] > 0 && ValueAt(m.heap, v)
    modifies m
    ensures !Stops(r) ==>
              && Inv(m, None) && SameBelow(old(m.kont), m.kont, base) && m.held == old(m.held) - multiset{v} + Carried(r)
              && Handed(Moment(old(m.heap), old(m.kont), v), m.heap, m.kont, r, layouts)
    ensures !r.Finished? && (r.Fault? <==> CannotTake(old(m.heap), old(m.kont)[|old(m.kont)| - 1], layouts))
    ensures r.SelfThunk? <==> TiesItself(old(m.heap), old(m.kont)[|old(m.kont)| - 1], v)
  {
    hide Good, Inv, ValueAt, Received, Activated, Enterable, SegsKept;
    match m.kont[|m.kont| - 1] {
      case KRet(_, _, _) => r := ToActivation(m, v);
      case KPrompt(_, _) => r := ToElse(m, v, layouts);
      case KDefer(_) => r := ToCleanup(m, v, layouts);
    }
  }

  /** Take the value in flight, then release the returning activation, so that
      nothing it still held looks like an owner to a clause boundary. */
  method Depart(m: Machine, fr: Option<Ref>, v: Ref, unit: Ref)
    requires Inv(m, None) && Held1(fr) + multiset{v, unit} <= m.held && ValueAt(m.heap, v) && ValueAt(m.heap, unit)
    modifies m
    ensures Inv(m, None) && m.kont == old(m.kont) && m.held == old(m.held) - Held1(fr) + multiset{v}
    ensures ValueAt(m.heap, v) && ValueAt(m.heap, unit) && Shed(old(m.heap), m.heap)
  {
    hide Good, Frees, Inv, ValueAt, Shed, SegsKept;
    ghost var h0 := m.heap;
    assert v in m.held;
    InHand(m, v);
    ghost var keep := [v, unit];
    Retain(m, v, None);
    SameValues(old(m.heap), m.heap, keep);
    assert ValueAt(m.heap, keep[0]) && ValueAt(m.heap, keep[1]);
    CountsShed(h0, m.heap);
    if fr.Some? {
      ghost var h1 := m.heap;
      ghost var log := Drop(m, fr.value, None);
      Survivor(h1, m, log, v);
      Survivor(h1, m, log, unit);
      FreesShed(h1, m.heap, log);
      ShedTrans(h0, h1, m.heap);
      OutAndIn(old(m.held), fr.value, v);
    }
  }

  lemma OutAndIn(held: multiset<Ref>, f: Ref, v: Ref)
    requires multiset{f} <= held
    ensures held + multiset{v} - multiset{f} == held - multiset{f} + multiset{v}
  {
  }

  lemma BelowTrans(k0: seq<KFrame>, k1: seq<KFrame>, k2: seq<KFrame>, base: nat)
    requires SameBelow(k0, k1, base) && SameBelow(k1, k2, base)
    ensures SameBelow(k0, k2, base)
  {
  }

  lemma Swap(held: multiset<Ref>, v: Ref, v': Ref)
    ensures held + multiset{v} - multiset{v} + multiset{v'} == held + multiset{v'}
  {
  }

  lemma BothHeld(held: multiset<Ref>, v: Ref, unit: Ref)
    requires unit in held
    ensures multiset{v, unit} <= held + multiset{v}
  {
  }

  /** Settle the frames that do not move control. */
  method SettleAll(m: Machine, v0: Ref, unit: Ref, base: nat, ghost held: multiset<Ref>) returns (v: Ref, ghost path: seq<Moment>)
    requires Inv(m, None) && base <= |m.kont| && m.held == held + multiset{v0} && unit in held
    requires ValueAt(m.heap, v0) && ValueAt(m.heap, unit)
    modifies m
    ensures Inv(m, None) && SameBelow(old(m.kont), m.kont, base) && m.held == held + multiset{v}
    ensures ValueAt(m.heap, v) && (|m.kont| == base || Unsettled(m.kont) == 0)
    ensures Settles(path, unit) && path[0] == Moment(old(m.heap), old(m.kont), v0)
    ensures path[|path| - 1] == Moment(m.heap, m.kont, v) && AllPassed(path, held, unit)
  {
    hide Good, Inv, ValueAt, Unsettled, SameBelow, Settles, SettleStep, AllPassed, RightlyPassed;
    v := v0;
    path := [Moment(m.heap, m.kont, v)];
    assert Settles(path, unit) && AllPassed(path, held, unit) by { SettlesAtOnce(path[0], held, unit); }
    assert SameBelow(m.kont, m.kont, base) by { BelowSame(m.kont, base); }
    var more := |m.kont| > base && !Takes(m.kont[|m.kont| - 1]);
    while more
      invariant Inv(m, None) && base <= |m.kont| && SameBelow(old(m.kont), m.kont, base)
      invariant m.held == held + multiset{v}
      invariant ValueAt(m.heap, v) && ValueAt(m.heap, unit)
      invariant |path| > 0 && Settles(path, unit) && AllPassed(path, held, unit) && path[0] == Moment(old(m.heap), old(m.kont), v0)
      invariant path[|path| - 1] == Moment(m.heap, m.kont, v)
      invariant more <==> |m.kont| > base && !Takes(m.kont[|m.kont| - 1])
      decreases Unsettled(m.kont)
    {
      ghost var k1 := m.kont;
      Unsettles(m.kont);
      BothHeld(held, v, unit);
      ghost var was := v;
      v := Settle(m, v, unit, base);
      SettlesOn(path, Moment(m.heap, m.kont, v), unit);
      PassesOn(path, Moment(m.heap, m.kont, v), held, unit);
      path := path + [Moment(m.heap, m.kont, v)];
      Swap(held, was, v);
      BelowTrans(old(m.kont), k1, m.kont, base);
      BelowLength(k1, m.kont, base);
      more := |m.kont| > base && !Takes(m.kont[|m.kont| - 1]);
    }
    if |m.kont| > base {
      Unsettles(m.kont);
    }
  }

  lemma SettlesAtOnce(a: Moment, held: multiset<Ref>, unit: Ref)
    ensures Settles([a], unit) && AllPassed([a], held, unit)
  {
  }

  lemma BelowSame(k: seq<KFrame>, base: nat)
    requires base <= |k|
    ensures SameBelow(k, k, base)
  {
  }

  lemma BelowLength(k: seq<KFrame>, k': seq<KFrame>, base: nat)
    requires SameBelow(k, k', base)
    ensures base <= |k'|
  {
  }

  /** A frame that takes the value and moves control. */
  predicate Takes(kf: KFrame) {
    kf.KRet? || kf.KPrompt? || kf.KDefer?
  }

  lemma Unsettles(kont: seq<KFrame>)
    requires |kont| > 0
    ensures Takes(kont[|kont| - 1]) <==> Unsettled(kont) == 0
  {
  }

  /** A whole delivery of `v0` from the heap `h` and the stack `k`: the frames that do
      not move control settle one by one, and then the value is the run's, or the
      frame on top takes it. */
  ghost predicate Delivered(h: Store, k: seq<KFrame>, v0: Ref, path: seq<Moment>, h': Store, k': seq<KFrame>, r: Next,
                            unit: Ref, base: nat, layouts: seq<seq<bool>>) {
    && Settles(path, unit) && Shed(h, path[0].heap) && path[0].kont == k && path[0].value == v0
    && var last := path[|path| - 1];
       if r.Finished? then |last.kont| == base && r.value == last.value && h' == last.heap && k' == last.kont
       else |last.kont| > base && Handed(last, h', k', r, layouts)
  }

  /** Where a delivered value lands: in the return frame's slot, or the box there takes
      its contents; alone in the leading slot of a prompt's value clause; and nowhere in a
      cleanup, which finds it saved below. */
  lemma DeliveryLands(h: Store, k: seq<KFrame>, v0: Ref, path: seq<Moment>, h': Store, k': seq<KFrame>, r: Next,
                      unit: Ref, base: nat, layouts: seq<seq<bool>>)
    requires Delivered(h, k, v0, path, h', k', r, unit, base, layouts) && !r.Finished?
    ensures var last := path[|path| - 1]; |last.kont| > 0
    ensures var last := path[|path| - 1]; var kf := last.kont[|last.kont| - 1];
            && (kf.KPrompt? ==> r.Enter? && r.frame < |h'| && Leading(h'[r.frame].payload, [last.value]) && h'[r.frame].payload.clos == Some(kf.els))
            && (kf.KDefer? ==>
                  && r.Enter? && r.frame < |h'| && Leading(h'[r.frame].payload, []) && h'[r.frame].payload.clos == Some(kf.cleanup)
                  && |k'| > 0 && k'[|k'| - 1] == KThunkRet(last.value))
            && (kf.KRet? ==> r == Continue(kf.frame, kf.cont) && Received(last.heap, h', kf.frame, kf.slot, last.value))
  {
    var last := path[|path| - 1];
    assert |last.kont| > 0;
    hide Settles, Shed, Received, Leading, Activated, SegsKept;
    var kf := last.kont[|last.kont| - 1];
    if kf.KPrompt? {
      ActivatedLeads(h', r, kf.els, CodeOf(last.heap[kf.els].payload), [last.value], layouts);
    } else if kf.KDefer? {
      ActivatedLeads(h', r, kf.cleanup, CodeOf(last.heap[kf.cleanup].payload), [], layouts);
    }
  }

  /** A delivery that stops: the frames settle one by one as in `Delivered`, and the one
      then on top names a closure that cannot be entered, or would tie a thunk to itself. */
  ghost predicate Halted(h: Store, k: seq<KFrame>, v0: Ref, path: seq<Moment>, r: Next, unit: Ref, base: nat, layouts: seq<seq<bool>>) {
    && Settles(path, unit) && Shed(h, path[0].heap) && path[0].kont == k && path[0].value == v0
    && var last := path[|path| - 1];
       && |last.kont| > base
       && if r.Fault? then CannotTake(last.heap, last.kont[|last.kont| - 1], layouts)
          else TiesItself(last.heap, last.kont[|last.kont| - 1], last.value)
  }

  /** Hand the value `v0` to the continuation stack, down to `base`.  Frames below
      `base` are not touched. */
  method DoRet(m: Machine, fr: Option<Ref>, v0: Ref, unit: Ref, base: nat, layouts: seq<seq<bool>>) returns (r: Next, ghost path: seq<Moment>)
    requires Inv(m, None) && base <= |m.kont|
    requires Held1(fr) + multiset{v0, unit} <= m.held && ValueAt(m.heap, v0) && ValueAt(m.heap, unit)
    modifies m
    ensures !Stops(r) ==>
              && Inv(m, None) && SameBelow(old(m.kont), m.kont, base) && m.held == old(m.held) - Held1(fr) + Carried(r)
              && Delivered(old(m.heap), old(m.kont), v0, path, m.heap, m.kont, r, unit, base, layouts)
    ensures AllPassed(path, old(m.held) - Held1(fr), unit)
    ensures r.Finished? ==> |m.kont| == base && ValueAt(m.heap, r.value)
    ensures Stops(r) ==> Halted(old(m.heap), old(m.kont), v0, path, r, unit, base, layouts)
  {
    hide Good, Inv, ValueAt, Unsettled, Held1, SameBelow, Shed, Settles, AllPassed, Handed, CannotTake, TiesItself;
    ghost var held := m.held - Held1(fr);
    Depart(m, fr, v0, unit);
    assert unit in held;
    var v;
    v, path := SettleAll(m, v0, unit, base, held);
    BelowLength(old(m.kont), m.kont, base);
    if |m.kont| == base {
      r := Finished(v);
    } else {
      ghost var k1 := m.kont;
      r := HandOver(m, v, layouts, base);
      if !Stops(r) {
        BelowTrans(old(m.kont), k1, m.kont, base);
        assert m.held == held + multiset{v} - multiset{v} + Carried(r);
      }
    }
  }
}
