/** What no value owns, no step comes to own: so a slice moved out, which its resume held
    alone, is never resumed again. */
module Unowned {
  import opened Common
  import opened Reified
  import opened Moving
  import opened Ownership

  /** What may be named: what is alive, but for slice `r`. */
  ghost function Not(a: Alive, r: nat): iset<nat> {
    iset z: nat | z !in a.slices || z == r
  }

  ghost predicate LivesIn(k: K, a: Alive, r: nat) {
    (k.Ret? ==> k.frame in a.frames) && (k.AfterClause? ==> k.slice in a.slices) && Free(KNames(k), Not(a, r))
  }

  ghost predicate LivesAll(ks: seq<K>, a: Alive, r: nat) {
    forall i :: 0 <= i < |ks| ==> LivesIn(ks[i], a, r)
  }

  /** The run and what is alive refer to what is alive, and none names slice `r`. */
  ghost predicate Lives(st: State, a: Alive, r: nat) {
    && (st.focus.Run? ==> st.focus.frame in a.frames) && (st.focus.Return? ==> Free(Names(st.focus.v), Not(a, r)))
    && LivesAll(st.kont, a, r)
    && (forall f :: f in a.frames && f < |st.frames| ==> FreeSlots(st.frames[f], Not(a, r)))
    && (forall q :: q in a.slices && q < |st.slices| ==> LivesAll(st.slices[q].seg, a, r))
  }

  lemma LivesUnowned(st: State, a: Alive, r: nat)
    ensures Lives(st, a, r) <==> Closed(st, a) && !Named(st, a, r)
  {
    LivesKs(st.kont, a, r);
    forall f | f in a.frames && f < |st.frames|
      ensures FreeSlots(st.frames[f], Not(a, r)) <==> KeepsSlots(a, st.frames[f]) && !NamedInSlots(r, st.frames[f])
    {
      LivesSlots(st.frames[f], a, r);
    }
    forall q | q in a.slices && q < |st.slices|
      ensures LivesAll(st.slices[q].seg, a, r) <==> KeepsAll(a, st.slices[q].seg) && !NamedIn(r, st.slices[q].seg)
    {
      LivesKs(st.slices[q].seg, a, r);
    }
    hide LivesAll, KeepsAll, NamedIn, FreeSlots, KeepsSlots, NamedInSlots;
    if st.focus.Return? {
      FreeOf(Names(st.focus.v), a, r);
    }
  }

  lemma FreeOf(names: set<nat>, a: Alive, r: nat)
    ensures Free(names, Not(a, r)) <==> names <= a.slices && r !in names
  {
  }

  lemma LivesKs(ks: seq<K>, a: Alive, r: nat)
    ensures LivesAll(ks, a, r) <==> KeepsAll(a, ks) && !NamedIn(r, ks)
  {
    forall i | 0 <= i < |ks|
      ensures LivesIn(ks[i], a, r) <==> Keeps(a, ks[i]) && r !in KNames(ks[i])
    {
      FreeOf(KNames(ks[i]), a, r);
    }
    hide LivesIn, Keeps;
  }

  lemma LivesSlots(slots: Slots, a: Alive, r: nat)
    ensures FreeSlots(slots, Not(a, r)) <==> KeepsSlots(a, slots) && !NamedInSlots(r, slots)
  {
    forall i | 0 <= i < |slots| && slots[i].Some?
      ensures Free(Names(slots[i].value), Not(a, r)) <==> Names(slots[i].value) <= a.slices && r !in Names(slots[i].value)
    {
      FreeOf(Names(slots[i].value), a, r);
    }
    hide Free, Names;
  }

  // ---- one step -----------------------------------------------------------

  ghost predicate Within(st: State, a: Alive) {
    forall f :: f in a.frames ==> f < |st.frames|
  }

  lemma LivesJoin(ks: seq<K>, more: seq<K>, a: Alive, r: nat)
    requires LivesAll(ks, a, r) && LivesAll(more, a, r)
    ensures LivesAll(ks + more, a, r)
  {
    hide LivesIn;
  }

  lemma LivesPart(ks: seq<K>, n: nat, a: Alive, r: nat)
    requires LivesAll(ks, a, r) && n <= |ks|
    ensures LivesAll(ks[..n], a, r) && LivesAll(ks[n..], a, r)
  {
    hide LivesIn;
  }

  /** More alive, fewer names barred. */
  lemma LivesMore(ks: seq<K>, a: Alive, b: Alive, r: nat)
    requires LivesAll(ks, a, r) && a.frames <= b.frames && a.slices <= b.slices
    ensures LivesAll(ks, b, r)
  {
    hide KNames;
    forall i | 0 <= i < |ks|
      ensures LivesIn(ks[i], b, r)
    {
      assert LivesIn(ks[i], a, r);
    }
  }

  lemma FreeMore(names: set<nat>, a: Alive, b: Alive, r: nat)
    requires Free(names, Not(a, r)) && a.slices <= b.slices
    ensures Free(names, Not(b, r))
  {
  }

  lemma FocusLives(st: State, a: Alive, r: nat, next: Focus)
    requires Lives(st, a, r) && (next.Run? ==> next.frame in a.frames) && (next.Return? ==> Free(Names(next.v), Not(a, r)))
    ensures Lives(st.(focus := next), a, r)
  {
  }

  lemma KontLives(st: State, a: Alive, r: nat, n: nat, top: seq<K>, next: Focus)
    requires Lives(st, a, r) && n <= |st.kont| && LivesAll(top, a, r)
    requires (next.Run? ==> next.frame in a.frames) && (next.Return? ==> Free(Names(next.v), Not(a, r)))
    ensures Lives(st.(kont := st.kont[..n] + top, focus := next), a, r)
  {
    LivesPart(st.kont, n, a, r);
    LivesJoin(st.kont[..n], top, a, r);
    hide LivesAll, FreeSlots, Free;
  }

  lemma EnterLives(p: Program, st: State, a: Alive, r: nat, f: V, args: seq<V>) returns (b: Alive)
    requires NoForging(p) && Lives(st, a, r) && Within(st, a) && Free(Names(f), Not(a, r)) && Free(NamesAll(args), Not(a, r))
    ensures var next := Enter(p, st, f, args); Lives(next, b, r) && Within(next, b)
  {
    if p.entry(f, args).None? {
      b := a;
    } else {
      b := Alive(a.frames + {|st.frames|}, a.slices);
      assert FreeSlots(p.entry(f, args).value.0, Not(a, r));
      hide NoForging, LivesAll, FreeSlots, Free;
      LivesMore(st.kont, a, b, r);
      forall q | q in b.slices && q < |st.slices|
        ensures LivesAll(st.slices[q].seg, b, r)
      {
        LivesMore(st.slices[q].seg, a, b, r);
      }
      assert Not(b, r) == Not(a, r);
    }
  }

  /** One more slice, of what the stack held. */
  lemma CutLives(st: State, a: Alive, r: nat, n: nat, s: Slice, top: seq<K>) returns (b: Alive)
    requires Lives(st, a, r) && Within(st, a) && n <= |st.kont| && s.seg in {[], st.kont[n..]} && r < |st.slices|
    requires LivesAll(top, Alive(a.frames, a.slices + {|st.slices|}), r)
    ensures b == Alive(a.frames, a.slices + {|st.slices|})
    ensures var cut := st.(kont := st.kont[..n] + top, slices := st.slices + [s]); Lives(cut, b, r) && Within(cut, b)
  {
    b := Alive(a.frames, a.slices + {|st.slices|});
    var cut := st.(kont := st.kont[..n] + top, slices := st.slices + [s]);
    LivesPart(st.kont, n, a, r);
    LivesMore(st.kont[..n], a, b, r);
    LivesMore(st.kont[n..], a, b, r);
    LivesJoin(st.kont[..n], top, b, r);
    forall q | q in b.slices && q < |cut.slices|
      ensures LivesAll(cut.slices[q].seg, b, r)
    {
      if q < |st.slices| {
        LivesMore(st.slices[q].seg, a, b, r);
      }
    }
    hide LivesAll;
    forall f | f in b.frames && f < |cut.frames|
      ensures FreeSlots(cut.frames[f], Not(b, r))
    {
      assert FreeSlots(st.frames[f], Not(a, r));
    }
  }

  lemma PerformLives(p: Program, mode: Mode, st: State, a: Alive, r: nat, op: nat, arg: V) returns (b: Alive)
    requires NoForging(p) && Lives(st, a, r) && Within(st, a) && Free(Names(arg), Not(a, r)) && r < |st.slices|
    ensures var next := Perform(p, mode, st, op, arg); Lives(next, b, r) && Within(next, b)
  {
    match PromptFor(st.kont, op)
    case None =>
      b := a;
      FocusLives(st, a, r, Faulted);
    case Some((n, clause)) =>
      var q, ds := |st.slices|, Defers(st.kont[n..]);
      var skips := clause.uses == Never && mode.skips;
      var top := if !skips then [AfterClause(q)] else if ds == [] then [] else [Cleanups(ds)];
      var s := if skips then Slice([], false, true) else Slice(st.kont[n..], false, false);
      var args := if clause.uses == Never then [arg] else [arg, Res(q)];
      b := Alive(a.frames, a.slices + {q});
      KontFrees(st.kont, a, r);
      PromptFree(st.kont, op, Not(a, r));
      LivesPart(st.kont, n, a, r);
      KontFrees(st.kont[n..], a, r);
      DefersFree(st.kont[n..], Not(a, r));
      hide PromptFor, Defers;
      assert LivesAll(top, b, r) by {
        FreeMore(NamesAll(ds), a, b, r);
      }
      assert Free(NamesAll(args), Not(b, r)) by {
        FreeMore(Names(arg), a, b, r);
        ArgsNamed(arg, q);
      }
      FreeMore(Names(clause.fun), a, b, r);
      hide NoForging, Lives, LivesAll, Free, NamesAll;
      var c := CutLives(st, a, r, n, s, top);
      b := EnterLives(p, st.(kont := st.kont[..n] + top, slices := st.slices + [s]), b, r, clause.fun, args);
  }

  lemma KontFrees(ks: seq<K>, a: Alive, r: nat)
    requires LivesAll(ks, a, r)
    ensures FreeKs(ks, Not(a, r))
  {
    forall i | 0 <= i < |ks|
      ensures Free(KNames(ks[i]), Not(a, r))
    {
      assert LivesIn(ks[i], a, r);
    }
  }

  lemma ArgsNamed(arg: V, q: nat)
    ensures NamesAll([arg]) == Names(arg) && NamesAll([arg, Res(q)]) == Names(arg) + {q}
  {
    assert [arg][1..] == [] && [arg, Res(q)][1..] == [Res(q)] && [Res(q)][1..] == [];
    assert NamesAll([arg]) == Names(arg) + {} && NamesAll([Res(q)]) == {q} + {} && NamesAll([arg, Res(q)]) == Names(arg) + NamesAll([Res(q)]);
  }

  lemma ResumeLives(mode: Mode, st: State, a: Alive, r: nat, q: nat, arg: V, unique: bool) returns (b: Alive)
    requires Lives(st, a, r) && Within(st, a) && Free({q}, Not(a, r)) && Free(Names(arg), Not(a, r))
    ensures var next := Resume(mode, st, q, arg, unique); Lives(next, b, r) && Within(next, b)
  {
    b := a;
    assert q in {q};
    if q >= |st.slices| || st.slices[q].gone {
      FocusLives(st, a, r, Faulted);
    } else if mode.moves && unique {
      LivesJoin(st.kont, st.slices[q].seg, a, r);
      hide LivesIn, FreeSlots, Free;
    } else {
      b := Alive(a.frames + set f | f in a.frames :: f + |st.frames|, a.slices);
      CopyLives(mode, st, a, b, r, q, arg, unique);
    }
  }

  lemma CopyLives(mode: Mode, st: State, a: Alive, b: Alive, r: nat, q: nat, arg: V, unique: bool)
    requires Lives(st, a, r) && Within(st, a) && q in a.slices && Free(Names(arg), Not(a, r))
    requires q < |st.slices| && !st.slices[q].gone && !(mode.moves && unique)
    requires b == Alive(a.frames + set f | f in a.frames :: f + |st.frames|, a.slices)
    ensures var next := Resume(mode, st, q, arg, unique); Lives(next, b, r) && Within(next, b)
  {
    var next, n, seg := Resume(mode, st, q, arg, unique), |st.frames|, st.slices[q].seg;
    LivesMore(st.kont, a, b, r);
    forall i | 0 <= i < |seg|
      ensures LivesIn(MovedAll(seg, n)[i], b, r)
    {
      assert LivesIn(seg[i], a, r);
    }
    LivesJoin(st.kont, MovedAll(seg, n), b, r);
    assert Not(b, r) == Not(a, r);
    forall z | z in b.slices && z < |next.slices|
      ensures LivesAll(next.slices[z].seg, b, r)
    {
      LivesMore(st.slices[z].seg, a, b, r);
    }
    hide LivesAll, FreeSlots, Free;
    forall f | f in b.frames && f < |next.frames|
      ensures FreeSlots(next.frames[f], Not(b, r))
    {
      if f >= n {
        assert next.frames[f] == st.frames[f - n];
      }
    }
  }

  lemma AppliedLives(p: Program, mode: Mode, st: State, a: Alive, r: nat, f: V, v: V, ask: Ask) returns (b: Alive)
    requires NoForging(p) && NoHoarding(p) && Lives(st, a, r) && Within(st, a) && r < |st.slices|
    requires Free(Names(f), Not(a, r)) && Free(Names(v), Not(a, r))
    ensures var next := Applied(p, mode, st, f, v, ask); Lives(next, b, r) && Within(next, b)
  {
    hide NoForging, Lives, Within, LivesAll, Free, NamesAll;
    match f
    case Oper(op) => b := PerformLives(p, mode, st, a, r, op, v);
    case Res(q) => b := ResumeLives(mode, st, a, r, q, v, ask.unique);
    case _ =>
      ArgsNamed(v, 0);
      if p.entry(f, [v]).Some? {
        b := EnterLives(p, st, a, r, f, [v]);
      } else {
        b := a;
        PrimLives(p, mode, st, a, r, f, v, ask);
      }
  }

  lemma PrimLives(p: Program, mode: Mode, st: State, a: Alive, r: nat, f: V, v: V, ask: Ask)
    requires NoHoarding(p) && Lives(st, a, r) && Within(st, a) && Free(Names(f), Not(a, r)) && Free(Names(v), Not(a, r))
    requires !f.Oper? && !f.Res? && p.entry(f, [v]).None?
    ensures var next := Applied(p, mode, st, f, v, ask); Lives(next, a, r) && Within(next, a)
  {
    hide LivesAll, FreeSlots;
  }

  lemma WroteLives(p: Program, st: State, a: Alive, r: nat)
    requires NoForging(p) && Lives(st, a, r) && Within(st, a) && st.focus.Run? && st.focus.frame < |st.frames|
    ensures Lives(Wrote(p, st), a, r) && Within(Wrote(p, st), a) && FreeDeed(p.block(st.focus.at, st.frames[st.focus.frame]), Not(a, r))
  {
    var slots := st.frames[st.focus.frame];
    assert FreeDeed(p.block(st.focus.at, slots), Not(a, r));
    WrittenFree(slots, p.block(st.focus.at, slots).updates, Not(a, r));
    hide NoForging, LivesAll, FreeSlots;
  }

  lemma BlockLives(p: Program, mode: Mode, st: State, a: Alive, r: nat, ask: Ask) returns (b: Alive)
    requires NoForging(p) && NoHoarding(p) && Lives(st, a, r) && Within(st, a) && r < |st.slices| && st.focus.Run?
    ensures var next := Step(p, mode, st, ask); Lives(next, b, r) && Within(next, b)
  {
    b := a;
    if st.focus.frame >= |st.frames| {
      FocusLives(st, a, r, Faulted);
    } else {
      WroteLives(p, st, a, r);
      var f, w := st.focus.frame, Wrote(p, st);
      var d := p.block(st.focus.at, st.frames[f]);
      assert f in a.frames;
      hide NoForging, NoHoarding, Lives, LivesAll, Free, KNames;
      match d.act
      case Give(v) => FocusLives(w, a, r, Return(v));
      case Crash => FocusLives(w, a, r, Faulted);
      case Apply(fun, v) => b := AppliedLives(p, mode, w, a, r, fun, v, ask);
      case Under(what, inner) =>
        SuspendedNames(what, f);
        assert w.kont[..|w.kont|] == w.kont;
        assert LivesAll([Suspended(what, f)], a, r) by {
          OneLives(Suspended(what, f), a, r);
        }
        KontLives(w, a, r, |w.kont|, [Suspended(what, f)], Run(f, inner));
    }
  }

  lemma SuspendedNames(what: Pending, f: nat)
    ensures KNames(Suspended(what, f)) == KNames(Suspended(what, 0))
  {
  }

  lemma OneLives(k: K, a: Alive, r: nat)
    requires LivesIn(k, a, r)
    ensures LivesAll([k], a, r)
  {
  }

  lemma ReturnLives(p: Program, mode: Mode, st: State, a: Alive, r: nat, ask: Ask) returns (b: Alive)
    requires NoForging(p) && Lives(st, a, r) && Within(st, a) && r < |st.slices| && st.focus.Return?
    ensures var next := Step(p, mode, st, ask); Lives(next, b, r) && Within(next, b)
  {
    b := a;
    var v := st.focus.v;
    if |st.kont| == 0 {
      FocusLives(st, a, r, Stopped(v));
    } else {
      var n, k := |st.kont| - 1, st.kont[|st.kont| - 1];
      assert LivesIn(k, a, r) && Free(Names(v), Not(a, r));
      assert st.kont[..n] + [] == st.kont[..n];
      assert LivesAll([], a, r);
      hide NoForging, Lives, LivesAll, Free, NamesAll, Within;
      match k
      case Ret(f, slot, next) => RetLives(p, mode, st, a, r, ask);
      case Prompt(_, els) =>
        KontLives(st, a, r, n, [], st.focus);
        ArgsNamed(v, 0);
        ElsFree(k, v, Not(a, r));
        b := EnterLives(p, st.(kont := st.kont[..n]), a, r, els, [v]);
      case Defer(cleanup) =>
        OneLives(ThunkRet(v), a, r);
        KontLives(st, a, r, n, [ThunkRet(v)], st.focus);
        NoArgsFree(Not(a, r));
        b := EnterLives(p, st.(kont := st.kont[..n] + [ThunkRet(v)]), a, r, cleanup, []);
      case ThunkRet(saved) => KontLives(st, a, r, n, [], Return(saved));
      case AfterClause(q) =>
        if q >= |st.slices| {
          FocusLives(st, a, r, Faulted);
        } else if st.slices[q].used || ask.owned {
          KontLives(st, a, r, n, [], st.focus);
        } else {
          SliceFrees(st, a, r, q);
          DefersFree(st.slices[q].seg, Not(a, r));
          UnwindLives(st, a, r, Defers(st.slices[q].seg), v);
        }
      case Cleanups(cleanups) => UnwindLives(st, a, r, cleanups, v);
    }
  }

  lemma SliceFrees(st: State, a: Alive, r: nat, q: nat)
    requires Lives(st, a, r) && q in a.slices && q < |st.slices|
    ensures FreeKs(st.slices[q].seg, Not(a, r))
  {
    hide LivesAll, FreeKs;
    KontFrees(st.slices[q].seg, a, r);
  }

  lemma UnwindLives(st: State, a: Alive, r: nat, cleanups: seq<V>, v: V)
    requires Lives(st, a, r) && Within(st, a) && Free(Names(v), Not(a, r)) && Free(NamesAll(cleanups), Not(a, r)) && |st.kont| > 0
    ensures var next := Unwind(st.(kont := st.kont[..|st.kont| - 1]), cleanups, v); Lives(next, a, r) && Within(next, a)
  {
    var n, top := |st.kont| - 1, [ThunkRet(v)] + Deferred(cleanups);
    forall i | 0 <= i < |top|
      ensures LivesIn(top[i], a, r)
    {
      if i > 0 {
        NamesOfOne(cleanups, i - 1);
      }
    }
    assert Free(Names(Unit), Not(a, r));
    hide Lives, LivesIn, Free, NamesAll, Names;
    KontLives(st, a, r, n, top, Return(Unit));
    assert st.kont[..n] + [ThunkRet(v)] + Deferred(cleanups) == st.kont[..n] + top;
  }

  lemma RetLives(p: Program, mode: Mode, st: State, a: Alive, r: nat, ask: Ask)
    requires Lives(st, a, r) && Within(st, a) && st.focus.Return? && |st.kont| > 0 && st.kont[|st.kont| - 1].Ret?
    ensures var next := Step(p, mode, st, ask); Lives(next, a, r) && Within(next, a)
  {
    var k := st.kont[|st.kont| - 1];
    assert LivesIn(k, a, r);
    LivesPart(st.kont, |st.kont| - 1, a, r);
    hide LivesAll, Free;
    if k.frame >= |st.frames| {
      FocusLives(st, a, r, Faulted);
    } else {
      WrittenFree(st.frames[k.frame], map[k.slot := Some(st.focus.v)], Not(a, r));
      hide FreeSlots;
    }
  }

  ghost function Smaller(st: State, a: Alive): Alive {
    Alive((set f | f in a.frames && f < |st.frames|), a.slices)
  }

  /** A step gives no owner to what had none. */
  lemma UnownedStays(p: Program, mode: Mode, st: State, ask: Ask, r: nat)
    requires NoForging(p) && NoHoarding(p) && InBounds(st) && r < |st.slices| && !Owned(st, r)
    ensures !Owned(Step(p, mode, st, ask), r)
  {
    var a :| Closed(st, a) && !Named(st, a, r);
    LivesUnowned(st, a, r);
    var small := Smaller(st, a);
    Shrunk(st, a, small, r);
    hide NoForging, NoHoarding, Lives, InBounds, Owned;
    var b := small;
    match st.focus {
      case Run(_, _) => b := BlockLives(p, mode, st, small, r, ask);
      case Return(_) => b := ReturnLives(p, mode, st, small, r, ask);
      case _ =>
    }
    LivesUnowned(Step(p, mode, st, ask), b, r);
    NotOwned(Step(p, mode, st, ask), b, r);
  }

  lemma NotOwned(st: State, a: Alive, r: nat)
    requires Closed(st, a) && !Named(st, a, r)
    ensures !Owned(st, r)
  {
    hide Closed, Named;
  }

  lemma Shrunk(st: State, a: Alive, small: Alive, r: nat)
    requires Lives(st, a, r) && InBounds(st) && small == Smaller(st, a)
    ensures Lives(st, small, r) && Within(st, small)
  {
    assert Not(small, r) == Not(a, r);
    forall i | 0 <= i < |st.kont|
      ensures LivesIn(st.kont[i], small, r)
    {
      assert LivesIn(st.kont[i], a, r) && Bounded(st.kont[i], |st.frames|);
    }
    forall q, i | q in a.slices && q < |st.slices| && 0 <= i < |st.slices[q].seg|
      ensures LivesIn(st.slices[q].seg[i], small, r)
    {
      assert LivesAll(st.slices[q].seg, a, r);
      assert LivesIn(st.slices[q].seg[i], a, r) && Bounded(st.slices[q].seg[i], |st.frames|);
    }
    hide LivesIn, Free;
  }

  // ---- what was moved out -------------------------------------------------

  /** No value names a slice that was moved out. */
  ghost predicate MovedUnowned(st: State) {
    forall r: nat :: r < |st.slices| && st.slices[r].gone && st.slices[r].used ==> !Owned(st, r)
  }

  /** So none is resumed: what the exact counts rule out. */
  lemma NoneResumed(p: Program, st: State)
    requires NoForging(p) && InBounds(st) && MovedUnowned(st)
    ensures Resumable(p, st)
  {
    if st.focus.Run? && st.focus.frame < |st.frames| {
      var act := p.block(st.focus.at, st.frames[st.focus.frame]).act;
      if act.Apply? && act.f.Res? && act.f.slice < |st.slices| && st.slices[act.f.slice].gone && st.slices[act.f.slice].used {
        var r := act.f.slice;
        assert !Owned(st, r);
        var a :| Closed(st, a) && !Named(st, a, r);
        LivesUnowned(st, a, r);
        var small := Smaller(st, a);
        Shrunk(st, a, small, r);
        hide Owned, InBounds, MovedUnowned, Lives;
        WroteLives(p, st, small, r);
        assert r in Names(act.f);
        assert false;
      }
    }
  }

  /** A step moves out the slice it resumes alone, and no other. */
  lemma MovedByStep(p: Program, st: State, ask: Ask, r: nat)
    requires var next := Step(p, MOVES, st, ask); r < |next.slices| && next.slices[r].gone && next.slices[r].used
    ensures || (r < |st.slices| && st.slices[r].gone && st.slices[r].used)
            || (Resumed(p, st) == Some(r) && ask.unique && Step(p, MOVES, st, ask) == Step(p, MOVES, st, Ask(false, true)))
  {
    hide PromptFor, Defers, Written, MovedAll, Deferred;
  }

  lemma MovedStays(p: Program, st: State, ask: Ask)
    requires NoForging(p) && NoHoarding(p) && InBounds(st) && MovedUnowned(st) && (ask.unique ==> Sole(p, st))
    ensures MovedUnowned(Step(p, MOVES, st, ask))
  {
    var next := Step(p, MOVES, st, ask);
    hide NoForging, NoHoarding, InBounds, Step, Owned;
    forall r: nat | r < |next.slices| && next.slices[r].gone && next.slices[r].used
      ensures !Owned(next, r)
    {
      MovedByStep(p, st, ask, r);
      if r < |st.slices| && st.slices[r].gone && st.slices[r].used {
        UnownedStays(p, MOVES, st, ask, r);
      }
    }
  }
}
