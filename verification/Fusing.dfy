/** Running chains of built-ins as one call is running them let by let: handlers,
    cleanups, operations and resumptions included, each machine deciding by its own
    counts.  What can tell them apart is a value the fused machine keeps in a slot that a
    partial application would have overwritten. */
module Fusing {
  import opened Common
  import opened Ir
  import opened Fusion
  import opened Driver

  type Allow = (nat, Val) -> bool

  /** The same machine but for what the activations of the second have kept. */
  ghost predicate Covered(m: State, m': State, ok: Allow) {
    && m'.slices == m.slices && m'.kont == m.kont && m'.focus == m.focus && m'.trace == m.trace
    && |m'.frames| == |m.frames| && forall f :: 0 <= f < |m.frames| ==> Covers(m.frames[f], m'.frames[f], ok)
  }

  predicate Lost(st: State) {
    st.focus.Faulted? || st.focus.Blank?
  }

  /** The counts say the same where it matters: whether a boundary runs its slice's
      cleanups, if it has any, and whether a resume moves its slice. */
  predicate ToldAlike(st: State, a: Ask, b: Ask) {
    && (AtBoundary(st) && Bounding(st) < |st.slices| && !st.slices[Bounding(st)].used && Defers(st.slices[Bounding(st)].seg) != [] ==>
          a.owned == b.owned)
    && (AtResume(st) ==> a.unique == b.unique)
  }

  // ---- one step of both ---------------------------------------------------

  lemma SetFrame(m: State, m': State, ok: Allow, f: nat, fr: Frame, fr': Frame, kont: seq<K>, focus: Focus, trace: seq<Question>)
    requires Covered(m, m', ok) && f < |m.frames| && Covers(fr, fr', ok)
    ensures Covered(m.(frames := m.frames[f := fr], kont := kont, focus := focus, trace := trace),
                    m'.(frames := m'.frames[f := fr'], kont := kont, focus := focus, trace := trace), ok)
  {
    hide Covers;
  }

  lemma OneFrame(m: State, m': State, ok: Allow, f: nat)
    requires Covered(m, m', ok) && f < |m.frames|
    ensures f < |m'.frames| && Covers(m.frames[f], m'.frames[f], ok)
  {
  }

  lemma SelfCovers(fr: Frame, ok: Allow)
    ensures Covers(fr, fr, ok)
  {
  }

  lemma Same(m: State, ok: Allow)
    ensures Covered(m, m, ok)
  {
    forall f | 0 <= f < |m.frames|
      ensures Covers(m.frames[f], m.frames[f], ok)
    {
      SelfCovers(m.frames[f], ok);
    }
  }

  predicate IsLeaf(e: Expr) {
    e.Ret? || e.Build? || e.Access? || e.Fail?
  }

  lemma LeafCovers(p: Program, w: World, e: Expr, fr: Frame, fr': Frame, ok: Allow, tick: nat)
    requires IsLeaf(e) && Covers(fr, fr', ok) && Eval(p, w, e, fr, tick, 0).Done?
    ensures var r, r' := Eval(p, w, e, fr, tick, 0), Eval(p, w, e, fr', tick, 0);
            r'.Done? && r'.value == r.value && r'.tick == r.tick && Covers(r.frame, r'.frame, ok)
    ensures e.Access? ==> ReadAtoms(p, w, [e.record] + e.fields, fr, tick).Gots? && ReadAtoms(p, w, [e.record] + e.fields, fr', tick).Gots?
                          && ReadAtoms(p, w, [e.record] + e.fields, fr', tick).values == ReadAtoms(p, w, [e.record] + e.fields, fr, tick).values
  {
    hide Covers, ReadAtom, ReadAtoms;
    match e
    case Ret(a) => ReadCovers(p, w, a, fr, fr', ok, tick);
    case Build(_, fields) => ReadAllCovers(p, w, fields, fr, fr', ok, tick);
    case Access(_, record, fields) => ReadAllCovers(p, w, [record] + fields, fr, fr', ok, tick);
    case Fail =>
  }

  lemma RunCovered(p: Program, w: World, m: State, m': State, ok: Allow, f: nat, e: Expr)
    requires Covered(m, m', ok) && m.focus == Run(f, e) && f < |m.frames| && !Lost(RunCode(p, w, m, f, e))
    ensures Covered(RunCode(p, w, m, f, e), RunCode(p, w, m', f, e), ok)
  {
    OneFrame(m, m', ok, f);
    hide Covered, Covers, ReadAtom, ReadAtoms, Eval;
    var fr, fr', tick := m.frames[f], m'.frames[f], |m.trace|;
    assert m'.trace == m.trace && m'.kont == m.kont by { Parts(m, m', ok); }
    match e
    case Let(slot, rhs, body) => Refocus(m, m', ok, m.kont + [KRet(f, slot, body)], Run(f, rhs));
    case App(fun, arg) =>
      ReadCovers(p, w, fun, fr, fr', ok, tick);
      var g, g' := ReadAtom(p, w, fun, fr, tick), ReadAtom(p, w, fun, fr', tick);
      ReadCovers(p, w, arg, g.frame, g'.frame, ok, tick);
      var h, h' := ReadAtom(p, w, arg, g.frame, tick), ReadAtom(p, w, arg, g'.frame, tick);
      SetFrame(m, m', ok, f, h.frame, h'.frame, m.kont, Call(f, g.value, h.value), m.trace);
    case Case(scrut, alts, default) => CaseCovered(p, w, m, m', ok, f, scrut, alts, default);
    case Handle(body, clauses, els) => HandleCovered(p, w, m, m', ok, f, body, clauses, els);
    case Defer(cleanup, body) =>
      ReadCovers(p, w, cleanup, fr, fr', ok, tick);
      var g, g' := ReadAtom(p, w, cleanup, fr, tick), ReadAtom(p, w, cleanup, fr', tick);
      SetFrame(m, m', ok, f, g.frame, g'.frame, m.kont + [KDefer(g.value)], Run(f, body), m.trace);
    case Drop(slots, body) =>
      ClearCovers(fr, fr', ok, slots);
      SetFrame(m, m', ok, f, fr.(locals := Clear(fr.locals, slots)), fr'.(locals := Clear(fr'.locals, slots)), m.kont, Run(f, body), m.trace);
    case _ => LeafCovered(p, w, m, m', ok, f, e);
  }

  lemma Parts(m: State, m': State, ok: Allow)
    requires Covered(m, m', ok)
    ensures m'.slices == m.slices && m'.kont == m.kont && m'.focus == m.focus && m'.trace == m.trace && |m'.frames| == |m.frames|
  {
  }

  lemma Refocus(m: State, m': State, ok: Allow, kont: seq<K>, focus: Focus)
    requires Covered(m, m', ok)
    ensures Covered(m.(kont := kont, focus := focus), m'.(kont := kont, focus := focus), ok)
  {
    hide Covers;
  }

  lemma ClearCovers(fr: Frame, fr': Frame, ok: Allow, slots: seq<nat>)
    requires Covers(fr, fr', ok)
    ensures Covers(fr.(locals := Clear(fr.locals, slots)), fr'.(locals := Clear(fr'.locals, slots)), ok)
  {
    ClearOver(fr.locals, fr'.locals, ok, slots);
  }

  lemma LeafCovered(p: Program, w: World, m: State, m': State, ok: Allow, f: nat, e: Expr)
    requires Covered(m, m', ok) && IsLeaf(e) && m.focus == Run(f, e) && f < |m.frames| && !Lost(RunCode(p, w, m, f, e))
    ensures Covered(RunCode(p, w, m, f, e), RunCode(p, w, m', f, e), ok)
  {
    OneFrame(m, m', ok, f);
    Parts(m, m', ok);
    hide Covered, Covers, ReadAtom, ReadAtoms, Eval;
    var fr, fr', tick := m.frames[f], m'.frames[f], |m.trace|;
    assert Eval(p, w, e, fr, tick, 0).Done?;
    LeafCovers(p, w, e, fr, fr', ok, tick);
    var r, r' := Eval(p, w, e, fr, tick, 0), Eval(p, w, e, fr', tick, 0);
    var s := RunCode(p, w, m, f, e);
    SetFrame(m, m', ok, f, r.frame, r'.frame, m.kont, Return(r.value), s.trace);
  }

  lemma CaseCovered(p: Program, w: World, m: State, m': State, ok: Allow, f: nat, scrut: Atom, alts: seq<Alt>, default: Expr)
    requires Covered(m, m', ok) && f < |m.frames| && !Lost(RunCase(p, w, m, f, scrut, alts, default))
    ensures |m'.frames| == |m.frames| && Covered(RunCase(p, w, m, f, scrut, alts, default), RunCase(p, w, m', f, scrut, alts, default), ok)
  {
    OneFrame(m, m', ok, f);
    Parts(m, m', ok);
    hide Covered, Covers, ReadAtom, Chosen;
    var fr, fr', tick := m.frames[f], m'.frames[f], |m.trace|;
    ReadCovers(p, w, scrut, fr, fr', ok, tick);
    var g, g' := ReadAtom(p, w, scrut, fr, tick), ReadAtom(p, w, scrut, fr', tick);
    var v := w.force(g.value, tick).value;
    var k, asked := Select(alts, v), m.trace + [Forced(g.value)];
    if k == |alts| {
      SetFrame(m, m', ok, f, g.frame, g'.frame, m.kont, Run(f, default), asked);
    } else {
      ChosenCovers(alts[k], v, g.frame, g'.frame, ok);
      SetFrame(m, m', ok, f, Chosen(alts[k], v, g.frame), Chosen(alts[k], v, g'.frame), m.kont, Run(f, alts[k].body), asked);
    }
  }

  lemma HandleCovered(p: Program, w: World, m: State, m': State, ok: Allow, f: nat, body: Expr, clauses: seq<OnOp>, els: Atom)
    requires Covered(m, m', ok) && f < |m.frames| && !Lost(RunHandle(p, w, m, f, body, clauses, els))
    ensures |m'.frames| == |m.frames| && Covered(RunHandle(p, w, m, f, body, clauses, els), RunHandle(p, w, m', f, body, clauses, els), ok)
  {
    OneFrame(m, m', ok, f);
    Parts(m, m', ok);
    hide Covered, Covers, ReadAtoms;
    var fr, fr', tick, atoms := m.frames[f], m'.frames[f], |m.trace|, Funs(clauses) + [els];
    GotAsMany(p, w, atoms, fr, tick);
    ReadAllCovers(p, w, atoms, fr, fr', ok, tick);
    var g, g' := ReadAtoms(p, w, atoms, fr, tick), ReadAtoms(p, w, atoms, fr', tick);
    SetFrame(m, m', ok, f, g.frame, g'.frame, m.kont + [KPrompt(Clauses(clauses, g.values), g.values[|clauses|])], Run(f, body), m.trace);
  }

  // ---- calls and deliveries -----------------------------------------------

  lemma EnterCovered(p: Program, m: State, m': State, ok: Allow, fun: Val, args: seq<Val>)
    requires Covered(m, m', ok)
    ensures Covered(EnterCode(p, m, fun, args), EnterCode(p, m', fun, args), ok)
  {
    if Activation(p, fun, args).Some? {
      SelfCovers(Activation(p, fun, args).value, ok);
    }
    hide Covers;
  }

  lemma CallCovered(p: Program, w: World, m: State, m': State, ok: Allow, f: nat, fun: Val, arg: Val, ask: Ask, ask': Ask)
    requires Covered(m, m', ok) && f < |m.frames| && !Lost(Applied(p, w, m, f, fun, arg, ask)) && (fun.Resumption? ==> ask.unique == ask'.unique)
    ensures |m'.frames| == |m.frames| && Covered(Applied(p, w, m, f, fun, arg, ask), Applied(p, w, m', f, fun, arg, ask'), ok)
  {
    OneFrame(m, m', ok, f);
    Parts(m, m', ok);
    hide Covers;
    match fun
    case Clo(_, _) => EnterCovered(p, m, m', ok, fun, [arg]);
    case Prim(name, args) => AfterCovered(p, w, m, m', ok, f, fun, arg, Called(name, args + [arg]));
    case Ext(idx, _, args) => AfterCovered(p, w, m, m', ok, f, fun, arg, Question.Foreign(idx, args + [arg]));
    case Operation(effect, op) => PerformCovered(p, m, m', ok, effect, op, arg);
    case Resumption(r) => ResumeCovered(m, m', ok, r, arg, ask.unique);
    case _ =>
  }

  lemma AfterCovered(p: Program, w: World, m: State, m': State, ok: Allow, f: nat, fun: Val, arg: Val, q: Question)
    requires Covered(m, m', ok) && f < |m.frames| && (fun.Prim? || fun.Ext?)
    requires !Lost(After(m, f, Apply(p, w, fun, arg, m.frames[f], |m.trace|, 0), q))
    ensures |m'.frames| == |m.frames|
    ensures Covered(After(m, f, Apply(p, w, fun, arg, m.frames[f], |m.trace|, 0), q), After(m', f, Apply(p, w, fun, arg, m'.frames[f], |m'.trace|, 0), q), ok)
  {
    OneFrame(m, m', ok, f);
    Parts(m, m', ok);
    var s := After(m, f, Apply(p, w, fun, arg, m.frames[f], |m.trace|, 0), q);
    hide Covers, Covered;
    SetFrame(m, m', ok, f, m.frames[f], m'.frames[f], m.kont, s.focus, s.trace);
  }

  lemma PerformCovered(p: Program, m: State, m': State, ok: Allow, effect: Option<nat>, op: nat, arg: Val)
    requires Covered(m, m', ok)
    ensures Covered(Perform(p, m, effect, op, arg), Perform(p, m', effect, op, arg), ok)
  {
    hide Covers;
    match PromptFor(m.kont, effect, op)
    case None =>
    case Some((n, clause)) =>
      var seg, below := m.kont[n..], m.kont[..n];
      if clause.uses == Never {
        var kont := below + (if Defers(seg) == [] then [] else [KCleanups(Defers(seg))]);
        EnterCovered(p, m.(kont := kont), m'.(kont := kont), ok, clause.fun, [arg, UNIT]);
      } else {
        var kont, slices := below + [KAfterClause(|m.slices|)], m.slices + [Slice(seg, false, false)];
        EnterCovered(p, m.(kont := kont, slices := slices), m'.(kont := kont, slices := slices), ok, clause.fun, [arg, Resumption(|m.slices|)]);
      }
  }

  lemma ResumeCovered(m: State, m': State, ok: Allow, r: nat, arg: Val, unique: bool)
    requires Covered(m, m', ok)
    ensures Covered(Resume(m, r, arg, unique), Resume(m', r, arg, unique), ok)
  {
    hide Covers;
  }

  lemma FilledCovers(fr: Frame, fr': Frame, ok: Allow, slot: nat, v: Val)
    requires Covers(fr, fr', ok) && slot < |fr.locals|
    ensures slot < |fr'.locals| && Covers(Filled(fr, slot, v), Filled(fr', slot, v), ok)
  {
  }

  lemma RowLength(fr: Frame, fr': Frame, ok: Allow)
    requires Covers(fr, fr', ok)
    ensures |fr'.locals| == |fr.locals|
  {
  }

  lemma DeliverCovered(p: Program, m: State, m': State, ok: Allow, v: Val, ask: Ask, ask': Ask)
    requires Covered(m, m', ok) && m.focus == Return(v) && ToldAlike(m, ask, ask')
    ensures Covered(Deliver(p, m, v, ask), Deliver(p, m', v, ask'), ok)
  {
    Parts(m, m', ok);
    hide Covers;
    if |m.kont| > 0 {
      var k, kont := m.kont[|m.kont| - 1], m.kont[..|m.kont| - 1];
      var popped, popped' := m.(kont := kont), m'.(kont := kont);
      match k
      case KRet(f, slot, body) =>
        if f < |m.frames| {
          OneFrame(m, m', ok, f);
          RowLength(m.frames[f], m'.frames[f], ok);
          if slot < |m.frames[f].locals| {
            FilledCovers(m.frames[f], m'.frames[f], ok, slot, v);
            SetFrame(m, m', ok, f, Filled(m.frames[f], slot, v), Filled(m'.frames[f], slot, v), kont, Run(f, body), m.trace);
          }
        }
      case KPrompt(_, els) => EnterCovered(p, popped, popped', ok, els, [v]);
      case KDefer(cleanup) =>
        EnterCovered(p, popped.(kont := kont + [KThunkRet(v)]), popped'.(kont := kont + [KThunkRet(v)]), ok, cleanup, []);
      case _ =>
    }
  }

  /** A step of both, off a chain. */
  lemma StepCovered(p: Program, w: World, m: State, m': State, ok: Allow, ask: Ask, ask': Ask)
    requires Covered(m, m', ok) && ToldAlike(m, ask, ask') && !Lost(Step(p, w, m, ask))
    ensures Covered(Step(p, w, m, ask), Step(p, w, m', ask'), ok)
  {
    Parts(m, m', ok);
    hide Covered, Covers, RunCode, Applied, Deliver, ToldAlike;
    match m.focus
    case Run(f, e) =>
      assert f < |m.frames| by { NoFrame(p, w, m, f, e); }
      RunCovered(p, w, m, m', ok, f, e);
    case Call(f, fun, arg) =>
      if fun.Resumption? {
        ToldResume(m, ask, ask');
      }
      CallCovered(p, w, m, m', ok, f, fun, arg, ask, ask');
    case Return(v) => DeliverCovered(p, m, m', ok, v, ask, ask');
    case _ =>
  }

  lemma ToldResume(m: State, ask: Ask, ask': Ask)
    requires ToldAlike(m, ask, ask') && AtResume(m)
    ensures ask.unique == ask'.unique
  {
  }

  lemma NoFrame(p: Program, w: World, m: State, f: nat, e: Expr)
    ensures f >= |m.frames| ==> Lost(RunCode(p, w, m, f, e))
  {
  }

  // ---- runs ---------------------------------------------------------------

  predicate Ended(st: State) {
    st.focus.Stopped? || Lost(st)
  }

  lemma {:induction false} EndedStays(p: Program, w: World, st: State, n: nat)
    requires Ended(st)
    ensures RunBy(p, w, st, n) == st
    decreases n
  {
    if n > 0 {
      EndedStays(p, w, st, n - 1);
    }
  }

  lemma {:induction false} RunOn(p: Program, w: World, st: State, a: nat, b: nat)
    ensures RunBy(p, w, st, a + b) == RunBy(p, w, RunBy(p, w, st, a), b)
    decreases a
  {
    hide Step, Counts;
    if a > 0 {
      RunOn(p, w, Step(p, w, st, Counts(st)), a - 1, b);
    }
  }

  lemma OneStep(p: Program, w: World, st: State)
    ensures RunBy(p, w, st, 1) == Step(p, w, st, Counts(st))
  {
    hide Step, Counts;
    assert RunBy(p, w, Step(p, w, st, Counts(st)), 0) == Step(p, w, st, Counts(st));
  }

  // ---- one application of a chain -----------------------------------------

  /** The trace once an application is done: it has asked, or not. */
  function Traced(st: State, tick: nat, name: nat, args: seq<Val>): seq<Question> {
    if tick == |st.trace| then st.trace else st.trace + [Called(name, args)]
  }

  /** Both operands of an application whose callee, if it is there, is a built-in. */
  lemma Operands(p: Program, w: World, fun: Atom, arg: Atom, fr: Frame, tick: nat, name: nat, args: seq<Val>)
    requires name in p.builtins && (ReadAtom(p, w, fun, fr, tick).Got? ==> ReadAtom(p, w, fun, fr, tick).value == Prim(name, args))
    ensures var g := ReadAtom(p, w, fun, fr, tick); var r := AppStep(p, w, fun, arg, fr, tick, 0);
            && (r.Done? ==> g.Got? && ReadAtom(p, w, arg, g.frame, tick).Got?)
            && (g.Got? && ReadAtom(p, w, arg, g.frame, tick).Got? ==>
                  var h := ReadAtom(p, w, arg, g.frame, tick);
                  && r == Apply(p, w, Prim(name, args), h.value, h.frame, tick, 0)
                  && (r.Done? ==> r.frame == h.frame && (r.tick == tick || r.tick == tick + 1)) && (!r.Done? ==> r.Faulty?))
  {
  }

  lemma AppRuns(p: Program, w: World, st: State, f: nat, fun: Atom, arg: Atom, name: nat, args: seq<Val>, ask: Ask, ask': Ask)
    requires st.focus == Run(f, App(fun, arg)) && f < |st.frames| && name in p.builtins
    requires var g := ReadAtom(p, w, fun, st.frames[f], |st.trace|); g.Got? ==> g.value == Prim(name, args)
    ensures var r := AppStep(p, w, fun, arg, st.frames[f], |st.trace|, 0); var s := Step(p, w, Step(p, w, st, ask), ask');
            if r.Done? then
              var g := ReadAtom(p, w, fun, st.frames[f], |st.trace|); var h := ReadAtom(p, w, arg, g.frame, |st.trace|);
              && g.Got? && h.Got?
              && s == st.(frames := st.frames[f := r.frame], focus := Return(r.value), trace := Traced(st, r.tick, name, args + [h.value]))
            else Lost(s)
  {
    hide AppStep, Apply;
    Operands(p, w, fun, arg, st.frames[f], |st.trace|, name, args);
    var g := ReadAtom(p, w, fun, st.frames[f], |st.trace|);
    if g.Got? {
      var h := ReadAtom(p, w, arg, g.frame, |st.trace|);
      if h.Got? {
        var called := st.(frames := st.frames[f := h.frame], focus := Call(f, g.value, h.value));
        assert Step(p, w, st, ask) == called;
        assert called.frames[f] == h.frame;
      }
    }
  }

  lemma TailRuns(p: Program, w: World, st: State, f: nat, fun: Atom, arg: Atom, name: nat, args: seq<Val>)
    requires st.focus == Run(f, App(fun, arg)) && f < |st.frames| && name in p.builtins
    requires var g := ReadAtom(p, w, fun, st.frames[f], |st.trace|); g.Got? ==> g.value == Prim(name, args)
    ensures var r := AppStep(p, w, fun, arg, st.frames[f], |st.trace|, 0); var s := RunBy(p, w, st, 2);
            if r.Done? then
              var g := ReadAtom(p, w, fun, st.frames[f], |st.trace|); var h := ReadAtom(p, w, arg, g.frame, |st.trace|);
              && g.Got? && h.Got?
              && s == st.(frames := st.frames[f := r.frame], focus := Return(r.value), trace := Traced(st, r.tick, name, args + [h.value]))
            else Lost(s)
  {
    var mid := Step(p, w, st, Counts(st));
    AppRuns(p, w, st, f, fun, arg, name, args, Counts(st), Counts(mid));
    hide Step, Counts, AppStep, ReadAtom;
    OneStep(p, w, st);
    OneStep(p, w, mid);
    RunOn(p, w, st, 1, 1);
  }

  lemma Pops(p: Program, st: State, k: K, v: Val, ask: Ask)
    requires |st.kont| > 0 && st.kont[|st.kont| - 1] == k && k.KRet? && st.focus == Return(v)
    ensures var s := Deliver(p, st, v, ask);
            if k.frame < |st.frames| && k.slot < |st.frames[k.frame].locals| then
              s == st.(kont := st.kont[..|st.kont| - 1], frames := st.frames[k.frame := Filled(st.frames[k.frame], k.slot, v)], focus := Run(k.frame, k.body))
            else Lost(s)
  {
  }

  /** A let whose right side is such an application: four steps. */
  lemma LetRuns(p: Program, w: World, st: State, f: nat, slot: nat, fun: Atom, arg: Atom, body: Expr, name: nat, args: seq<Val>)
    requires st.focus == Run(f, Let(slot, App(fun, arg), body)) && f < |st.frames| && name in p.builtins
    requires var g := ReadAtom(p, w, fun, st.frames[f], |st.trace|); g.Got? ==> g.value == Prim(name, args)
    ensures var r := AppStep(p, w, fun, arg, st.frames[f], |st.trace|, 0); var s := RunBy(p, w, st, 4);
            if r.Done? && slot < |r.frame.locals| then
              var g := ReadAtom(p, w, fun, st.frames[f], |st.trace|); var h := ReadAtom(p, w, arg, g.frame, |st.trace|);
              && g.Got? && h.Got?
              && s == st.(frames := st.frames[f := Filled(r.frame, slot, r.value)], focus := Run(f, body),
                          trace := Traced(st, r.tick, name, args + [h.value]))
            else Lost(s)
  {
    var k := KRet(f, slot, body);
    var pushed := st.(kont := st.kont + [k], focus := Run(f, App(fun, arg)));
    assert Step(p, w, st, Counts(st)) == pushed;
    TailRuns(p, w, pushed, f, fun, arg, name, args);
    hide Counts, AppStep, ReadAtom, RunCode, Applied, Deliver;
    OneStep(p, w, st);
    RunOn(p, w, st, 1, 2);
    var back := RunBy(p, w, st, 3);
    RunOn(p, w, st, 3, 1);
    OneStep(p, w, back);
    if Lost(back) {
      EndedStays(p, w, back, 1);
    } else {
      Pops(p, back, k, back.focus.value, Counts(back));
      assert back.kont[..|back.kont| - 1] == st.kont;
      var r := AppStep(p, w, fun, arg, st.frames[f], |st.trace|, 0);
      assert back.frames[f] == r.frame;
    }
  }

  // ---- a whole chain ------------------------------------------------------

  /** The steps let by let from `cur` on, where the partial application in slot `partial`
      has `n` operands. */
  function LetSteps(partial: nat, n: nat, arity: nat, cur: Expr): nat
    decreases cur
  {
    if n >= arity then 0
    else
      match cur
      case Drop(_, body) => 1 + LetSteps(partial, n, arity, body)
      case App(_, _) => 2
      case Let(next, _, body) => 4 + LetSteps(next, n + 1, arity, body)
      case _ => 0
  }

  ghost predicate CoveredBut(m: State, m': State, f: nat, ok: Allow) {
    && m'.slices == m.slices && m'.kont == m.kont && |m'.frames| == |m.frames| && f < |m.frames|
    && forall g :: 0 <= g < |m.frames| && g != f ==> Covers(m.frames[g], m'.frames[g], ok)
  }

  /** The let-by-let machine has taken `args` of a chain the fused one is about to run. */
  ghost predicate Between(p: Program, w: World, m: State, m': State, ok: Allow, f: nat, name: nat, arity: nat,
                          args: seq<Atom>, slots: seq<nat>, drops: seq<nat>) {
    && CoveredBut(m, m', f, ok)
    && Reached(p, w, name, arity, args, slots, drops, m.frames[f], m'.frames[f], ok, |m'.trace|, |m.trace|)
    && m.trace == if |args| < arity then m'.trace
                  else m'.trace + [Called(name, ReadAtoms(p, w, args, m'.frames[f], |m'.trace|).values)]
  }

  /** Past the chain: the two are the same machine, but for what the chain's slots kept. */
  ghost predicate Met(s: State, s': State, c: Chain, f: nat, ok: Allow) {
    && CoveredBut(s, s', f, ok) && s'.focus == s.focus && s'.trace == s.trace
    && (Spare(c, s'.frames[f], ok) ==> Covers(s.frames[f], s'.frames[f], ok))
    && (forall x :: x in c.slots && x < |s.frames[f].locals| && (c.rest.Some? ==> x != c.rest.value.0) ==> s.frames[f].locals[x].None?)
  }

  lemma SpareFilled(c: Chain, fr: Frame, v: Val, ok: Allow)
    requires c.rest.Some? && c.rest.value.0 < |fr.locals|
    ensures Spare(c, Filled(fr, c.rest.value.0, v), ok) <==> Spare(c, fr, ok)
  {
  }

  lemma AllTaken(p: Program, w: World, m: State, m': State, ok: Allow, f: nat, name: nat, args: seq<Atom>, slots: seq<nat>, drops: seq<nat>, cur: Expr)
    requires Between(p, w, m, m', ok, f, name, |args|, args, slots, drops) && m.focus == Run(f, cur)
    ensures |slots| > 0
    ensures var c := Chain(name, args, slots, drops, Some((slots[|slots| - 1], cur))); Met(m, RunFused(p, w, m', f, c), c, f, ok)
  {
    var partial := slots[|slots| - 1];
    var c := Chain(name, args, slots, drops, Some((partial, cur)));
    var fr, start := m.frames[f], m'.frames[f];
    FullyApplied(p, w, name, args, slots, drops, cur, fr, start, ok, |m'.trace|, |m.trace|);
    hide Reached, ReadAtoms, Covers, Spare, RunChain;
    var r := RunChain(p, w, c, start, |m'.trace|);
    SpareFilled(c, r.frame, r.value, ok);
    assert Filled(r.frame, partial, r.value) == r.frame.(locals := r.frame.locals[partial := Some(r.value)]);
  }

  lemma LastMeets(p: Program, w: World, m: State, m': State, ok: Allow, f: nat, name: nat, arity: nat,
                  args: seq<Atom>, slots: seq<nat>, drops: seq<nat>, arg: Atom)
    requires name in p.builtins && p.builtins[name] == arity && |args| + 1 == arity
    requires Between(p, w, m, m', ok, f, name, arity, args, slots, drops) && m.focus == Run(f, App(Move(slots[|slots| - 1]), arg))
    ensures var c := Chain(name, args + [arg], slots + [slots[|slots| - 1]], drops, None);
            var s := RunBy(p, w, m, 2); Lost(s) || Met(s, RunFused(p, w, m', f, c), c, f, ok)
  {
    var partial := slots[|slots| - 1];
    var c := Chain(name, args + [arg], slots + [partial], drops, None);
    var fr, start, tick := m.frames[f], m'.frames[f], |m.trace|;
    TakenBy(p, w, name, arity, args, slots, drops, fr, start, ok, |m'.trace|, tick);
    var values := ReadAtoms(p, w, args, start, tick).values;
    TailRuns(p, w, m, f, Move(partial), arg, name, values);
    if AppStep(p, w, Move(partial), arg, fr, tick, 0).Done? {
      LastTaken(p, w, name, arity, args, slots, drops, arg, fr, start, ok, tick, tick);
      SameValues(p, w, name, arity, args, slots, drops, arg, fr, start, ok, tick);
      hide Reached, ReadAtoms, ReadAtom, Covers, Spare, RunChain, AppStep;
    }
  }

  /** What the built-in is asked is the same, read one by one or all at once. */
  lemma SameValues(p: Program, w: World, name: nat, arity: nat, args: seq<Atom>, slots: seq<nat>, drops: seq<nat>, arg: Atom,
                   fr: Frame, start: Frame, ok: Allow, tick: nat)
    requires name in p.builtins && p.builtins[name] == arity && |args| < arity
    requires Reached(p, w, name, arity, args, slots, drops, fr, start, ok, tick, tick)
    requires AppStep(p, w, Move(slots[|slots| - 1]), arg, fr, tick, 0).Done?
    ensures var g := ReadAtom(p, w, Move(slots[|slots| - 1]), fr, tick);
            && g.Got? && ReadAtom(p, w, arg, g.frame, tick).Got?
            && ReadAtoms(p, w, args + [arg], start, tick).Gots?
            && ReadAtoms(p, w, args + [arg], start, tick).values == ReadAtoms(p, w, args, start, tick).values + [ReadAtom(p, w, arg, g.frame, tick).value]
            && (var r := AppStep(p, w, Move(slots[|slots| - 1]), arg, fr, tick, 0); r.tick == if |args| + 1 < arity then tick else tick + 1)
  {
    var partial := slots[|slots| - 1];
    var before := ReadAtoms(p, w, args, start, tick);
    var moved := Without(fr, partial);
    assert ReadAtom(p, w, Move(partial), fr, tick) == Got(Prim(name, before.values), moved);
    ReadCovers(p, w, arg, moved, before.frame, Besides(ok, slots, drops), tick);
    ReadOneMore(p, w, args, arg, start, tick);
  }

  lemma NextMeets(p: Program, w: World, m: State, m': State, ok: Allow, f: nat, name: nat, arity: nat,
                  args: seq<Atom>, slots: seq<nat>, drops: seq<nat>, next: nat, arg: Atom, body: Expr)
    requires name in p.builtins && p.builtins[name] == arity && |args| < arity
    requires Between(p, w, m, m', ok, f, name, arity, args, slots, drops)
    requires m.focus == Run(f, Let(next, App(Move(slots[|slots| - 1]), arg), body))
    ensures var s := RunBy(p, w, m, 4);
            Lost(s) || (s.focus == Run(f, body) && Between(p, w, s, m', ok, f, name, arity, args + [arg], slots + [next], drops))
  {
    var partial := slots[|slots| - 1];
    var fr, start, tick := m.frames[f], m'.frames[f], |m.trace|;
    TakenBy(p, w, name, arity, args, slots, drops, fr, start, ok, |m'.trace|, tick);
    var values := ReadAtoms(p, w, args, start, tick).values;
    LetRuns(p, w, m, f, next, Move(partial), arg, body, name, values);
    var r := AppStep(p, w, Move(partial), arg, fr, tick, 0);
    if r.Done? && next < |r.frame.locals| {
      SameValues(p, w, name, arity, args, slots, drops, arg, fr, start, ok, tick);
      TakesOne(p, w, name, arity, args, slots, drops, arg, fr, start, ok, tick, tick);
      ReachedNext(p, w, name, arity, args, slots, drops, arg, next, fr, start, ok, tick, tick);
      hide Reached, ReadAtoms, ReadAtom, Covers, AppStep;
    }
  }

  lemma DropMeets(p: Program, w: World, m: State, m': State, ok: Allow, f: nat, name: nat, arity: nat,
                  args: seq<Atom>, slots: seq<nat>, drops: seq<nat>, more: seq<nat>, body: Expr)
    requires |args| < arity && Between(p, w, m, m', ok, f, name, arity, args, slots, drops) && m.focus == Run(f, Drop(more, body))
    ensures var s := RunBy(p, w, m, 1); s.focus == Run(f, body) && Between(p, w, s, m', ok, f, name, arity, args, slots, drops + more)
  {
    ReachedDrop(p, w, name, arity, args, slots, drops, more, m.frames[f], m'.frames[f], ok, |m'.trace|, |m.trace|);
    hide Reached, ReadAtoms, Covers;
    OneStep(p, w, m);
  }

  lemma SlotsThere(p: Program, w: World, m: State, m': State, ok: Allow, f: nat, name: nat, arity: nat,
                   args: seq<Atom>, slots: seq<nat>, drops: seq<nat>)
    requires Between(p, w, m, m', ok, f, name, arity, args, slots, drops)
    ensures |slots| > 0 && |args| <= arity
  {
  }

  /** After `n` steps let by let, a value is wanting or the fused chain is met. */
  ghost predicate MetIn(p: Program, w: World, m: State, m': State, ok: Allow, f: nat, chain: Option<Chain>, n: nat)
    requires f < |m'.frames|
  {
    chain.Some? && (Lost(RunBy(p, w, m, n)) || Met(RunBy(p, w, m, n), RunFused(p, w, m', f, chain.value), chain.value, f, ok))
  }

  lemma MetLater(p: Program, w: World, m: State, m': State, ok: Allow, f: nat, chain: Option<Chain>, k: nat, n: nat)
    requires f < |m'.frames| && chain.Some? && (Lost(RunBy(p, w, m, k)) || MetIn(p, w, RunBy(p, w, m, k), m', ok, f, chain, n))
    ensures MetIn(p, w, m, m', ok, f, chain, k + n)
  {
    RunOn(p, w, m, k, n);
    if Lost(RunBy(p, w, m, k)) {
      LostStays(p, w, RunBy(p, w, m, k), n);
    }
    hide RunBy, Met, Lost, RunFused;
  }

  lemma {:induction false} ChainMeets(p: Program, w: World, m: State, m': State, ok: Allow, f: nat, name: nat, arity: nat,
                                      args: seq<Atom>, slots: seq<nat>, drops: seq<nat>, cur: Expr)
    requires f < |m'.frames| && name in p.builtins && p.builtins[name] == arity && |slots| > 0
    requires Between(p, w, m, m', ok, f, name, arity, args, slots, drops) && m.focus == Run(f, cur)
    requires ChainFrom(name, arity, args, slots, drops, cur).Some?
    ensures MetIn(p, w, m, m', ok, f, ChainFrom(name, arity, args, slots, drops, cur), LetSteps(slots[|slots| - 1], |args|, arity, cur))
    decreases cur, 1
  {
    SlotsThere(p, w, m, m', ok, f, name, arity, args, slots, drops);
    hide *;
    if |args| == arity {
      AllTaken(p, w, m, m', ok, f, name, args, slots, drops, cur);
      NoSteps(p, w, m);
      AtEnd(name, args, slots, drops, cur);
      MetNow(p, w, m, m', ok, f, ChainFrom(name, arity, args, slots, drops, cur), 0);
    } else {
      Linked(name, arity, args, slots, drops, cur);
      match cur
      case Drop(more, body) =>
        AtDrop(name, arity, args, slots, drops, more, body);
        DropMeets(p, w, m, m', ok, f, name, arity, args, slots, drops, more, body);
        ChainMeets(p, w, RunBy(p, w, m, 1), m', ok, f, name, arity, args, slots, drops + more, body);
        MetLater(p, w, m, m', ok, f, ChainFrom(name, arity, args, slots, drops, cur), 1, LetSteps(slots[|slots| - 1], |args|, arity, body));
      case App(fun, arg) => LastLink(p, w, m, m', ok, f, name, arity, args, slots, drops, fun, arg);
      case Let(next, rhs, body) => NextLink(p, w, m, m', ok, f, name, arity, args, slots, drops, next, rhs, body);
    }
  }

  lemma LastLink(p: Program, w: World, m: State, m': State, ok: Allow, f: nat, name: nat, arity: nat,
                 args: seq<Atom>, slots: seq<nat>, drops: seq<nat>, fun: Atom, arg: Atom)
    requires f < |m'.frames| && name in p.builtins && p.builtins[name] == arity && |slots| > 0 && |args| < arity
    requires Between(p, w, m, m', ok, f, name, arity, args, slots, drops) && m.focus == Run(f, App(fun, arg))
    requires ChainFrom(name, arity, args, slots, drops, App(fun, arg)).Some?
    ensures var cur := App(fun, arg);
            MetIn(p, w, m, m', ok, f, ChainFrom(name, arity, args, slots, drops, cur), LetSteps(slots[|slots| - 1], |args|, arity, cur))
  {
    hide *;
    AtLast(name, arity, args, slots, drops, fun, arg);
    LastMeets(p, w, m, m', ok, f, name, arity, args, slots, drops, arg);
    MetNow(p, w, m, m', ok, f, ChainFrom(name, arity, args, slots, drops, App(fun, arg)), 2);
  }

  lemma {:induction false} NextLink(p: Program, w: World, m: State, m': State, ok: Allow, f: nat, name: nat, arity: nat,
                                    args: seq<Atom>, slots: seq<nat>, drops: seq<nat>, next: nat, rhs: Expr, body: Expr)
    requires f < |m'.frames| && name in p.builtins && p.builtins[name] == arity && |slots| > 0 && |args| < arity
    requires Between(p, w, m, m', ok, f, name, arity, args, slots, drops) && m.focus == Run(f, Let(next, rhs, body))
    requires ChainFrom(name, arity, args, slots, drops, Let(next, rhs, body)).Some?
    ensures var cur := Let(next, rhs, body);
            MetIn(p, w, m, m', ok, f, ChainFrom(name, arity, args, slots, drops, cur), LetSteps(slots[|slots| - 1], |args|, arity, cur))
    decreases Let(next, rhs, body), 0
  {
    hide *;
    AtNext(name, arity, args, slots, drops, next, rhs, body);
    NextMeets(p, w, m, m', ok, f, name, arity, args, slots, drops, next, rhs.arg, body);
    var mid := RunBy(p, w, m, 4);
    if !Lost(mid) {
      ChainMeets(p, w, mid, m', ok, f, name, arity, args + [rhs.arg], slots + [next], drops, body);
    }
    MetLater(p, w, m, m', ok, f, ChainFrom(name, arity, args, slots, drops, Let(next, rhs, body)), 4, LetSteps(next, |args| + 1, arity, body));
  }

  lemma MetNow(p: Program, w: World, m: State, m': State, ok: Allow, f: nat, chain: Option<Chain>, n: nat)
    requires f < |m'.frames| && chain.Some? && (Lost(RunBy(p, w, m, n)) || Met(RunBy(p, w, m, n), RunFused(p, w, m', f, chain.value), chain.value, f, ok))
    ensures MetIn(p, w, m, m', ok, f, chain, n)
  {
  }

  lemma LostStays(p: Program, w: World, st: State, n: nat)
    requires Lost(st)
    ensures RunBy(p, w, st, n) == st
  {
    EndedStays(p, w, st, n);
  }

  /** A chain by its next link. */
  lemma Linked(name: nat, arity: nat, args: seq<Atom>, slots: seq<nat>, drops: seq<nat>, cur: Expr)
    requires |slots| > 0 && |args| < arity && ChainFrom(name, arity, args, slots, drops, cur).Some?
    ensures cur.Drop? || cur.App? || cur.Let?
  {
  }

  lemma AtEnd(name: nat, args: seq<Atom>, slots: seq<nat>, drops: seq<nat>, cur: Expr)
    requires |slots| > 0
    ensures ChainFrom(name, |args|, args, slots, drops, cur) == Some(Chain(name, args, slots, drops, Some((slots[|slots| - 1], cur))))
    ensures LetSteps(slots[|slots| - 1], |args|, |args|, cur) == 0
  {
  }

  lemma AtDrop(name: nat, arity: nat, args: seq<Atom>, slots: seq<nat>, drops: seq<nat>, more: seq<nat>, body: Expr)
    requires |slots| > 0 && |args| < arity
    ensures ChainFrom(name, arity, args, slots, drops, Drop(more, body)) == ChainFrom(name, arity, args, slots, drops + more, body)
    ensures LetSteps(slots[|slots| - 1], |args|, arity, Drop(more, body)) == 1 + LetSteps(slots[|slots| - 1], |args|, arity, body)
  {
  }

  lemma AtLast(name: nat, arity: nat, args: seq<Atom>, slots: seq<nat>, drops: seq<nat>, fun: Atom, arg: Atom)
    requires |slots| > 0 && |args| < arity && ChainFrom(name, arity, args, slots, drops, App(fun, arg)).Some?
    ensures fun == Move(slots[|slots| - 1]) && |args| + 1 == arity && LetSteps(slots[|slots| - 1], |args|, arity, App(fun, arg)) == 2
    ensures ChainFrom(name, arity, args, slots, drops, App(fun, arg)) == Some(Chain(name, args + [arg], slots + [slots[|slots| - 1]], drops, None))
  {
  }

  lemma AtNext(name: nat, arity: nat, args: seq<Atom>, slots: seq<nat>, drops: seq<nat>, next: nat, rhs: Expr, body: Expr)
    requires |slots| > 0 && |args| < arity && ChainFrom(name, arity, args, slots, drops, Let(next, rhs, body)).Some?
    ensures rhs.App? && rhs.fun == Move(slots[|slots| - 1]) && (slots + [next])[|slots|] == next
    ensures LetSteps(slots[|slots| - 1], |args|, arity, Let(next, rhs, body)) == 4 + LetSteps(next, |args| + 1, arity, body)
    ensures ChainFrom(name, arity, args, slots, drops, Let(next, rhs, body)) == ChainFrom(name, arity, args + [rhs.arg], slots + [next], drops, body)
  {
  }

  lemma NoSteps(p: Program, w: World, st: State)
    ensures RunBy(p, w, st, 0) == st
  {
  }

  lemma FirstMeets(p: Program, w: World, m: State, m': State, ok: Allow, f: nat, slot: nat, name: nat, arg: Atom, body: Expr)
    requires Covered(m, m', ok) && f < |m.frames| && m.focus == Run(f, Let(slot, App(Glob(name), arg), body))
    requires name !in p.globals && name in p.builtins && p.builtins[name] > 0
    ensures var s := RunBy(p, w, m, 4);
            Lost(s) || (s.focus == Run(f, body) && Between(p, w, s, m', ok, f, name, p.builtins[name], [arg], [slot], []))
  {
    OneFrame(m, m', ok, f);
    Parts(m, m', ok);
    var fr, start, tick := m.frames[f], m'.frames[f], |m.trace|;
    assert ReadAtom(p, w, Glob(name), fr, tick) == Got(Prim(name, []), fr);
    LetRuns(p, w, m, f, slot, Glob(name), arg, body, name, []);
    var r := AppStep(p, w, Glob(name), arg, fr, tick, 0);
    if r.Done? && slot < |r.frame.locals| {
      ReachedFirst(p, w, name, arg, slot, fr, start, ok, tick);
      ReadCovers(p, w, arg, fr, start, ok, tick);
      FirstValue(p, w, arg, start, tick);
      assert r.tick == if 1 < p.builtins[name] then tick else tick + 1;
      hide Reached, ReadAtoms, ReadAtom, Covers, AppStep;
    }
  }

  lemma FirstValue(p: Program, w: World, arg: Atom, fr: Frame, tick: nat)
    requires ReadAtom(p, w, arg, fr, tick).Got?
    ensures ReadAtoms(p, w, [arg], fr, tick).Gots? && ReadAtoms(p, w, [arg], fr, tick).values == [] + [ReadAtom(p, w, arg, fr, tick).value]
  {
    assert [arg][1..] == [];
    assert ReadAtoms(p, w, [], ReadAtom(p, w, arg, fr, tick).frame, tick) == Gots([], ReadAtom(p, w, arg, fr, tick).frame);
  }

  // ---- turns --------------------------------------------------------------

  /** The steps let by let that are one of the fused machine. */
  function TurnLength(p: Program, deep: set<nat>, st: State): (k: nat)
    ensures k > 0
  {
    match ChainAt(p, deep, st)
    case Some(c) => 4 + LetSteps(st.focus.code.slot, 1, if c.name in p.builtins then p.builtins[c.name] else 0, st.focus.code.body)
    case None => 1
  }

  ghost function Turn(p: Program, w: World, deep: set<nat>, st: State): State {
    RunBy(p, w, st, TurnLength(p, deep, st))
  }

  ghost function FTurn(p: Program, w: World, deep: set<nat>, st: State): State {
    FStep(p, w, deep, st, Counts(st))
  }

  lemma {:induction false} ChainName(name: nat, arity: nat, args: seq<Atom>, slots: seq<nat>, drops: seq<nat>, cur: Expr)
    requires |slots| > 0 && ChainFrom(name, arity, args, slots, drops, cur).Some?
    ensures ChainFrom(name, arity, args, slots, drops, cur).value.name == name
    decreases cur
  {
    if |args| != arity {
      match cur
      case Drop(more, body) => ChainName(name, arity, args, slots, drops + more, body);
      case Let(next, rhs, body) => ChainName(name, arity, args + [rhs.arg], slots + [next], drops, body);
      case App(_, _) =>
    }
  }

  lemma ChainTurn(p: Program, w: World, deep: set<nat>, m: State, m': State, ok: Allow)
    requires Covered(m, m', ok) && ChainAt(p, deep, m).Some?
    ensures ChainAt(p, deep, m') == ChainAt(p, deep, m)
    ensures Lost(Turn(p, w, deep, m)) || Met(Turn(p, w, deep, m), FTurn(p, w, deep, m'), ChainAt(p, deep, m).value, m.focus.frame, ok)
  {
    hide *;
    Parts(m, m', ok);
    AtChain(p, deep, m, m');
    var f, slot, rhs, body := m.focus.frame, m.focus.code.slot, m.focus.code.rhs, m.focus.code.body;
    var name := rhs.fun.name;
    var arity := p.builtins[name];
    FirstMeets(p, w, m, m', ok, f, slot, name, rhs.arg, body);
    var mid, n := RunBy(p, w, m, 4), LetSteps(slot, 1, arity, body);
    TurnIs(p, w, deep, m, m', 4 + n);
    if !Lost(mid) {
      ChainMeets(p, w, mid, m', ok, f, name, arity, [rhs.arg], [slot], [], body);
    }
    MetLater(p, w, m, m', ok, f, ChainAt(p, deep, m), 4, n);
    MetThere(p, w, m, m', ok, f, ChainAt(p, deep, m), 4 + n);
  }

  lemma MetThere(p: Program, w: World, m: State, m': State, ok: Allow, f: nat, chain: Option<Chain>, n: nat)
    requires f < |m'.frames| && MetIn(p, w, m, m', ok, f, chain, n)
    ensures Lost(RunBy(p, w, m, n)) || Met(RunBy(p, w, m, n), RunFused(p, w, m', f, chain.value), chain.value, f, ok)
  {
  }

  /** What stands where a chain begins. */
  lemma AtChain(p: Program, deep: set<nat>, m: State, m': State)
    requires ChainAt(p, deep, m).Some? && m'.focus == m.focus && |m'.frames| == |m.frames|
    ensures m.focus.Run? && m.focus.code.Let? && m.focus.frame < |m.frames| && ChainAt(p, deep, m') == ChainAt(p, deep, m)
    ensures var slot, rhs, body := m.focus.code.slot, m.focus.code.rhs, m.focus.code.body;
            && rhs.App? && rhs.fun.Glob? && rhs.fun.name !in p.globals && rhs.fun.name in p.builtins && p.builtins[rhs.fun.name] > 0
            && ChainAt(p, deep, m) == ChainFrom(rhs.fun.name, p.builtins[rhs.fun.name], [rhs.arg], [slot], [], body)
            && ChainAt(p, deep, m).value.name == rhs.fun.name
            && TurnLength(p, deep, m) == 4 + LetSteps(slot, 1, p.builtins[rhs.fun.name], body)
  {
    ChainName(m.focus.code.rhs.fun.name, p.builtins[m.focus.code.rhs.fun.name], [m.focus.code.rhs.arg], [m.focus.code.slot], [], m.focus.code.body);
    hide ChainFrom, ReadsChain;
  }

  lemma TurnIs(p: Program, w: World, deep: set<nat>, m: State, m': State, k: nat)
    requires TurnLength(p, deep, m) == k && ChainAt(p, deep, m').Some? && m'.focus.frame < |m'.frames|
    ensures Turn(p, w, deep, m) == RunBy(p, w, m, k)
    ensures FTurn(p, w, deep, m') == RunFused(p, w, m', m'.focus.frame, ChainAt(p, deep, m').value)
  {
    hide RunBy, TurnLength, RunFused;
  }

  /** A chain the fused machine runs here leaves nothing in its slots that is not allowed. */
  ghost predicate LeavesSpare(p: Program, w: World, deep: set<nat>, st: State, ok: Allow) {
    match ChainAt(p, deep, st)
    case Some(c) => var s := FTurn(p, w, deep, st); st.focus.frame < |s.frames| ==> Spare(c, s.frames[st.focus.frame], ok)
    case None => true
  }

  lemma MetCovered(s: State, s': State, c: Chain, f: nat, ok: Allow)
    requires Met(s, s', c, f, ok) && (f < |s'.frames| ==> Spare(c, s'.frames[f], ok))
    ensures Covered(s, s', ok)
  {
    hide Covers, Spare;
  }

  lemma TurnCovered(p: Program, w: World, deep: set<nat>, m: State, m': State, ok: Allow)
    requires Covered(m, m', ok) && ToldAlike(m, Counts(m), Counts(m')) && LeavesSpare(p, w, deep, m', ok)
    ensures Lost(Turn(p, w, deep, m)) || Covered(Turn(p, w, deep, m), FTurn(p, w, deep, m'), ok)
  {
    if ChainAt(p, deep, m).Some? {
      ChainTurn(p, w, deep, m, m', ok);
      Parts(m, m', ok);
      hide Covered, Met, Spare, Turn, FTurn, ChainAt;
      if !Lost(Turn(p, w, deep, m)) {
        MetCovered(Turn(p, w, deep, m), FTurn(p, w, deep, m'), ChainAt(p, deep, m).value, m.focus.frame, ok);
      }
    } else {
      NoChain(p, deep, m, m', ok);
      OneStep(p, w, m);
      hide Covered, Step, Counts, ToldAlike, RunBy, ChainAt, LeavesSpare;
      if !Lost(Turn(p, w, deep, m)) {
        StepCovered(p, w, m, m', ok, Counts(m), Counts(m'));
      }
    }
  }

  lemma NoChain(p: Program, deep: set<nat>, m: State, m': State, ok: Allow)
    requires Covered(m, m', ok) && ChainAt(p, deep, m).None?
    ensures ChainAt(p, deep, m').None?
  {
  }

  // ---- what the counts see ------------------------------------------------

  /** Values that name no slice. */
  function Plain(): Allow {
    (i: nat, v: Val) => Names(v) == {}
  }

  /** Nothing. */
  function Nothing(): Allow {
    (i: nat, v: Val) => false
  }

  function Anything(): Allow {
    (i: nat, v: Val) => true
  }

  lemma NamedMore(fr: Frame, fr': Frame, ok: Allow, r: nat)
    requires Covers(fr, fr', ok)
    ensures NamedInFrame(r, fr) ==> NamedInFrame(r, fr')
    ensures ok == Plain() && NamedInFrame(r, fr') ==> NamedInFrame(r, fr)
  {
    if NamedInRow(r, fr.locals) {
      var i :| 0 <= i < |fr.locals| && fr.locals[i].Some? && r in Names(fr.locals[i].value);
      assert fr'.locals[i] == fr.locals[i];
    }
    if ok == Plain() && NamedInRow(r, fr'.locals) {
      var i :| 0 <= i < |fr'.locals| && fr'.locals[i].Some? && r in Names(fr'.locals[i].value);
      assert fr.locals[i] == fr'.locals[i];
    }
  }

  lemma KeepsLess(a: Alive, fr: Frame, fr': Frame, ok: Allow)
    requires Covers(fr, fr', ok)
    ensures KeepsFrame(a, fr') ==> KeepsFrame(a, fr)
    ensures ok == Plain() && KeepsFrame(a, fr) ==> KeepsFrame(a, fr')
  {
    hide NamedInFrame, Covers, Plain;
    forall r: nat
      ensures NamedInFrame(r, fr) ==> NamedInFrame(r, fr')
      ensures ok == Plain() && NamedInFrame(r, fr') ==> NamedInFrame(r, fr)
    {
      NamedMore(fr, fr', ok, r);
    }
  }

  lemma ClosedLess(m: State, m': State, ok: Allow, a: Alive)
    requires Covered(m, m', ok)
    ensures Closed(m', a) ==> Closed(m, a)
    ensures ok == Plain() && Closed(m, a) ==> Closed(m', a)
  {
    hide KeepsFrame, Covers, Plain, Keeps;
    forall f: nat | f < |m.frames|
      ensures KeepsFrame(a, m'.frames[f]) ==> KeepsFrame(a, m.frames[f])
      ensures ok == Plain() && KeepsFrame(a, m.frames[f]) ==> KeepsFrame(a, m'.frames[f])
    {
      KeepsLess(a, m.frames[f], m'.frames[f], ok);
    }
  }

  lemma NamedSame(m: State, m': State, ok: Allow, a: Alive, r: nat)
    requires Covered(m, m', ok)
    ensures Named(m, a, r) ==> Named(m', a, r)
    ensures ok == Plain() && Named(m', a, r) ==> Named(m, a, r)
  {
    hide NamedInFrame, Covers, Plain, NamedIn;
    forall f: nat | f < |m.frames|
      ensures NamedInFrame(r, m.frames[f]) ==> NamedInFrame(r, m'.frames[f])
      ensures ok == Plain() && NamedInFrame(r, m'.frames[f]) ==> NamedInFrame(r, m.frames[f])
    {
      NamedMore(m.frames[f], m'.frames[f], ok, r);
    }
  }

  /** What the fused machine keeps can only own more; and if it names nothing, owns
      nothing. */
  lemma OwnedMore(m: State, m': State, ok: Allow, r: nat)
    requires Covered(m, m', ok)
    ensures Owned(m, r) ==> Owned(m', r)
    ensures ok == Plain() && Owned(m', r) ==> Owned(m, r)
  {
    hide Closed, Named, Covered, Plain;
    forall a: Alive
      ensures (Closed(m', a) ==> Closed(m, a)) && (Named(m, a, r) ==> Named(m', a, r))
      ensures ok == Plain() ==> (Closed(m, a) ==> Closed(m', a)) && (Named(m', a, r) ==> Named(m, a, r))
    {
      ClosedLess(m, m', ok, a);
      NamedSame(m, m', ok, a, r);
    }
  }

  lemma PlainTold(m: State, m': State)
    requires Covered(m, m', Plain())
    ensures Counts(m') == Counts(m)
  {
    Parts(m, m', Plain());
    hide Owned, Covered, Plain;
    if AtBoundary(m) {
      OwnedMore(m, m', Plain(), Bounding(m));
    }
    if AtResume(m) {
      OwnedMore(m, m', Plain(), m.focus.fun.id);
    }
  }

  // ---- whole runs ---------------------------------------------------------

  /** Until the let-by-let machine has come `n` steps, the counts of the two say the same
      where it matters, and chains leave only what is allowed. */
  ghost predicate Along(p: Program, w: World, deep: set<nat>, m: State, m': State, ok: Allow, n: nat)
    decreases n
  {
    n > 0 && !Ended(m) ==>
      && ToldAlike(m, Counts(m), Counts(m')) && LeavesSpare(p, w, deep, m', ok)
      && var k := TurnLength(p, deep, m); Along(p, w, deep, Turn(p, w, deep, m), FTurn(p, w, deep, m'), ok, if k <= n then n - k else 0)
  }

  ghost predicate SeenAlike(s: State, s': State) {
    s.focus.Stopped? && s'.focus == s.focus && s'.trace == s.trace
  }

  /** A turn cut short by the end of the run has ended too. */
  lemma TurnEnds(p: Program, w: World, deep: set<nat>, m: State, n: nat)
    requires RunBy(p, w, m, n).focus.Stopped?
    ensures var k := TurnLength(p, deep, m);
            if k <= n then RunBy(p, w, Turn(p, w, deep, m), n - k) == RunBy(p, w, m, n) else Turn(p, w, deep, m) == RunBy(p, w, m, n)
    ensures !Lost(Turn(p, w, deep, m))
  {
    hide RunBy, TurnLength;
    var k := TurnLength(p, deep, m);
    if k <= n {
      RunOn(p, w, m, k, n - k);
      if Lost(Turn(p, w, deep, m)) {
        EndedStays(p, w, Turn(p, w, deep, m), n - k);
      }
    } else {
      RunOn(p, w, m, n, k - n);
      EndedStays(p, w, RunBy(p, w, m, n), k - n);
    }
  }

  lemma {:induction false} RunsMeet(p: Program, w: World, deep: set<nat>, m: State, m': State, ok: Allow, n: nat) returns (k: nat)
    requires Covered(m, m', ok) && RunBy(p, w, m, n).focus.Stopped? && Along(p, w, deep, m, m', ok, n)
    ensures SeenAlike(RunBy(p, w, m, n), FRunBy(p, w, deep, m', k))
    decreases n
  {
    hide Covered, RunBy, ToldAlike, Counts, LeavesSpare, Turn, FTurn, TurnLength;
    if n == 0 || Ended(m) {
      k := 0;
      NoSteps(p, w, m);
      if Ended(m) {
        EndedStays(p, w, m, n);
      }
      Parts(m, m', ok);
    } else {
      TurnCovered(p, w, deep, m, m', ok);
      TurnEnds(p, w, deep, m, n);
      var l := TurnLength(p, deep, m);
      var t, t' := Turn(p, w, deep, m), FTurn(p, w, deep, m');
      if l <= n {
        var j := RunsMeet(p, w, deep, t, t', ok, n - l);
        k := j + 1;
      } else {
        Parts(t, t', ok);
        k := 1;
      }
      FRunOn(p, w, deep, m', k);
    }
  }

  lemma FRunOn(p: Program, w: World, deep: set<nat>, st: State, k: nat)
    requires k > 0
    ensures FRunBy(p, w, deep, st, k) == FRunBy(p, w, deep, FTurn(p, w, deep, st), k - 1)
    ensures k == 1 ==> FRunBy(p, w, deep, st, k) == FTurn(p, w, deep, st)
  {
    hide FStep, Counts;
  }

  /** The counts of the two say the same where it matters, all along. */
  ghost predicate Agreed(p: Program, w: World, deep: set<nat>, m: State, m': State, n: nat)
    decreases n
  {
    n > 0 && !Ended(m) ==>
      && ToldAlike(m, Counts(m), Counts(m'))
      && var k := TurnLength(p, deep, m); Agreed(p, w, deep, Turn(p, w, deep, m), FTurn(p, w, deep, m'), if k <= n then n - k else 0)
  }

  lemma {:induction false} AgreedAlong(p: Program, w: World, deep: set<nat>, m: State, m': State, n: nat)
    requires Agreed(p, w, deep, m, m', n)
    ensures Along(p, w, deep, m, m', Anything(), n)
    decreases n
  {
    hide ToldAlike, Counts, Turn, FTurn, TurnLength;
    if n > 0 && !Ended(m) {
      AllSpare(p, w, deep, m');
      var k := TurnLength(p, deep, m);
      AgreedAlong(p, w, deep, Turn(p, w, deep, m), FTurn(p, w, deep, m'), if k <= n then n - k else 0);
    }
  }

  lemma AllSpare(p: Program, w: World, deep: set<nat>, st: State)
    ensures LeavesSpare(p, w, deep, st, Anything())
  {
    hide FTurn;
  }

  /** Whenever the let-by-let machine finishes with a value, without reading a slot that
      was emptied, the fused one finishes with the same value, having asked the runtime
      the same questions, if the counts of the two say the same where it matters. */
  lemma FusedEndsAlike(p: Program, w: World, deep: set<nat>, st: State, n: nat) returns (k: nat)
    requires RunBy(p, w, st, n).focus.Stopped? && Agreed(p, w, deep, st, st, n)
    ensures SeenAlike(RunBy(p, w, st, n), FRunBy(p, w, deep, st, k))
  {
    AgreedAlong(p, w, deep, st, st, n);
    Same(st, Anything());
    k := RunsMeet(p, w, deep, st, st, Anything(), n);
  }

  // ---- where the two decide -----------------------------------------------

  ghost function Turns(p: Program, w: World, deep: set<nat>, st: State, t: nat): State
    decreases t
  {
    if t == 0 then st else Turns(p, w, deep, Turn(p, w, deep, st), t - 1)
  }

  ghost predicate AgreedFor(p: Program, w: World, deep: set<nat>, m: State, m': State, t: nat)
    decreases t
  {
    t > 0 ==> ToldAlike(m, Counts(m), Counts(m')) && AgreedFor(p, w, deep, Turn(p, w, deep, m), FTurn(p, w, deep, m'), t - 1)
  }

  lemma LostTurn(p: Program, w: World, deep: set<nat>, st: State)
    requires Lost(st)
    ensures Lost(Turn(p, w, deep, st))
  {
    EndedStays(p, w, st, TurnLength(p, deep, st));
  }

  lemma {:induction false} LostTurns(p: Program, w: World, deep: set<nat>, st: State, t: nat)
    requires Lost(st)
    ensures Lost(Turns(p, w, deep, st, t))
    decreases t
  {
    hide Turn, Lost;
    if t > 0 {
      LostTurn(p, w, deep, st);
      LostTurns(p, w, deep, Turn(p, w, deep, st), t - 1);
    }
  }

  lemma {:induction false} TurnsCovered(p: Program, w: World, deep: set<nat>, m: State, m': State, t: nat)
    requires Covered(m, m', Anything()) && AgreedFor(p, w, deep, m, m', t) && !Lost(Turns(p, w, deep, m, t))
    ensures Covered(Turns(p, w, deep, m, t), FRunBy(p, w, deep, m', t), Anything())
    decreases t
  {
    hide Covered, ToldAlike, Counts, Turn, FTurn, Lost;
    if t > 0 {
      AllSpare(p, w, deep, m');
      TurnCovered(p, w, deep, m, m', Anything());
      if Lost(Turn(p, w, deep, m)) {
        LostTurns(p, w, deep, Turn(p, w, deep, m), t - 1);
      }
      TurnsCovered(p, w, deep, Turn(p, w, deep, m), FTurn(p, w, deep, m'), t - 1);
      FRunOn(p, w, deep, m', t);
    }
  }

  /** Owned only through what the fused machine's slots have kept. */
  ghost predicate OwnedByKept(m: State, m': State, r: nat) {
    Owned(m', r) && !Owned(m, r)
  }

  /** As long as they agree, the two come to the same boundaries and resumes, on the same
      stack and slices and having asked the same; and there their counts say the same, where
      it matters, if and only if the slice is not owned only through what the fused
      machine's slots have kept. */
  lemma PartExactlyThere(p: Program, w: World, deep: set<nat>, st: State, t: nat)
    requires AgreedFor(p, w, deep, st, st, t) && !Lost(Turns(p, w, deep, st, t))
    ensures var m, m' := Turns(p, w, deep, st, t), FRunBy(p, w, deep, st, t);
            && m'.kont == m.kont && m'.slices == m.slices && m'.focus == m.focus && m'.trace == m.trace
            && (ToldAlike(m, Counts(m), Counts(m')) <==>
                  && (AtBoundary(m) && Bounding(m) < |m.slices| && !m.slices[Bounding(m)].used && Defers(m.slices[Bounding(m)].seg) != [] ==>
                        !OwnedByKept(m, m', Bounding(m)))
                  && (AtResume(m) ==> !OwnedByKept(m, m', m.focus.fun.id)))
  {
    Same(st, Anything());
    TurnsCovered(p, w, deep, st, st, t);
    var m, m' := Turns(p, w, deep, st, t), FRunBy(p, w, deep, st, t);
    Parts(m, m', Anything());
    hide Covered, Owned, Turns, FRunBy, Defers;
    if AtBoundary(m) {
      OwnedMore(m, m', Anything(), Bounding(m));
    }
    if AtResume(m) {
      OwnedMore(m, m', Anything(), m.focus.fun.id);
    }
  }

  // ---- the guard ----------------------------------------------------------

  /** Before a chain, each of its slots but the one its result goes to is empty, or holds
      what is allowed. */
  ghost predicate Tidy(p: Program, deep: set<nat>, st: State, ok: Allow) {
    match ChainAt(p, deep, st)
    case Some(c) => Spare(c, st.frames[st.focus.frame], ok)
    case None => true
  }

  lemma {:induction false} ReadOnlyEmpties(p: Program, w: World, a: Atom, fr: Frame, tick: nat)
    ensures var r := ReadAtom(p, w, a, fr, tick);
            r.Got? ==> |r.frame.locals| == |fr.locals| && forall i :: 0 <= i < |fr.locals| ==> r.frame.locals[i].None? || r.frame.locals[i] == fr.locals[i]
    decreases a
  {
    if a.Clos? {
      ReadAllOnlyEmpty(p, w, a.captures, fr, tick);
    }
  }

  lemma {:induction false} ReadAllOnlyEmpty(p: Program, w: World, atoms: seq<Atom>, fr: Frame, tick: nat)
    ensures var r := ReadAtoms(p, w, atoms, fr, tick);
            r.Gots? ==> |r.frame.locals| == |fr.locals| && forall i :: 0 <= i < |fr.locals| ==> r.frame.locals[i].None? || r.frame.locals[i] == fr.locals[i]
    decreases atoms
  {
    if |atoms| > 0 {
      ReadOnlyEmpties(p, w, atoms[0], fr, tick);
      var r := ReadAtom(p, w, atoms[0], fr, tick);
      if r.Got? {
        ReadAllOnlyEmpty(p, w, atoms[1..], r.frame, tick);
      }
    }
  }

  /** The guard can be looked at before the chain is run: operands and drops only empty
      slots. */
  lemma TidyLeavesSpare(p: Program, w: World, deep: set<nat>, st: State, ok: Allow)
    requires Tidy(p, deep, st, ok) && !Lost(FTurn(p, w, deep, st))
    ensures LeavesSpare(p, w, deep, st, ok)
  {
    if ChainAt(p, deep, st).Some? {
      var c, f := ChainAt(p, deep, st).value, st.focus.frame;
      ReadAllOnlyEmpty(p, w, c.args, st.frames[f], |st.trace|);
      var r := ReadAtoms(p, w, c.args, st.frames[f], |st.trace|);
      hide ReadAtoms, ChainAt;
      if r.Gots? {
        Cleared(r.frame.locals, c.drops);
      }
    }
  }

  /** The fused chain leaves exactly the machine its lets leave if and only if it leaves
      nothing in its slots, but for the one its result goes to. */
  lemma ChainIsExact(p: Program, w: World, deep: set<nat>, st: State)
    requires ChainAt(p, deep, st).Some? && !Lost(Turn(p, w, deep, st))
    ensures FTurn(p, w, deep, st) == Turn(p, w, deep, st) <==> LeavesSpare(p, w, deep, st, Nothing())
  {
    Same(st, Nothing());
    ChainTurn(p, w, deep, st, st, Nothing());
    hide ChainAt, Turn, FTurn, Covered;
    MetSame(Turn(p, w, deep, st), FTurn(p, w, deep, st), ChainAt(p, deep, st).value, st.focus.frame);
  }

  lemma MetSame(s: State, s': State, c: Chain, f: nat)
    requires Met(s, s', c, f, Nothing())
    ensures s' == s <==> (f < |s'.frames| ==> Spare(c, s'.frames[f], Nothing()))
  {
    if Spare(c, s'.frames[f], Nothing()) {
      forall g | 0 <= g < |s.frames|
        ensures s'.frames[g] == s.frames[g]
      {
        NothingMore(s.frames[g], s'.frames[g]);
      }
      assert s'.frames == s.frames;
    }
  }

  lemma NothingMore(fr: Frame, fr': Frame)
    requires Covers(fr, fr', Nothing())
    ensures fr' == fr
  {
    assert fr'.locals == fr.locals;
  }

  /** Every chain of the next `t` turns of the fused machine has tidy slots. */
  ghost predicate AllTidy(p: Program, w: World, deep: set<nat>, st: State, ok: Allow, t: nat)
    decreases t
  {
    t > 0 ==> Tidy(p, deep, st, ok) && AllTidy(p, w, deep, FTurn(p, w, deep, st), ok, t - 1)
  }

  lemma {:induction false} TidyLess(p: Program, w: World, deep: set<nat>, st: State, ok: Allow, t: nat, u: nat)
    requires u <= t && AllTidy(p, w, deep, st, ok, t)
    ensures AllTidy(p, w, deep, st, ok, u)
    decreases t
  {
    hide Tidy, FTurn;
    if u > 0 {
      TidyLess(p, w, deep, FTurn(p, w, deep, st), ok, t - 1, u - 1);
    }
  }

  lemma SpareIfLost(p: Program, w: World, deep: set<nat>, m: State, m': State, ok: Allow)
    requires Covered(m, m', ok) && Tidy(p, deep, m', ok) && !Lost(Turn(p, w, deep, m))
    ensures LeavesSpare(p, w, deep, m', ok)
  {
    if ChainAt(p, deep, m').Some? {
      Parts(m, m', ok);
      assert ChainAt(p, deep, m).Some?;
      ChainTurn(p, w, deep, m, m', ok);
      hide ChainAt, Turn, FTurn, Covered, Tidy;
      TidyLeavesSpare(p, w, deep, m', ok);
    }
  }

  lemma {:induction false} TidyAlong(p: Program, w: World, deep: set<nat>, m: State, m': State, n: nat)
    requires Covered(m, m', Plain()) && RunBy(p, w, m, n).focus.Stopped? && AllTidy(p, w, deep, m', Plain(), n)
    ensures Along(p, w, deep, m, m', Plain(), n)
    decreases n
  {
    hide Covered, Counts, ToldAlike, LeavesSpare, Tidy, Turn, FTurn, TurnLength, RunBy, Plain;
    if n > 0 && !Ended(m) {
      TurnEnds(p, w, deep, m, n);
      PlainTold(m, m');
      ToldSame(m, Counts(m));
      SpareIfLost(p, w, deep, m, m', Plain());
      TurnCovered(p, w, deep, m, m', Plain());
      var k := TurnLength(p, deep, m);
      var t, t' := Turn(p, w, deep, m), FTurn(p, w, deep, m');
      if k <= n {
        TidyLess(p, w, deep, t', Plain(), n - 1, n - k);
        TidyAlong(p, w, deep, t, t', n - k);
      }
    }
  }

  lemma ToldSame(m: State, ask: Ask)
    ensures ToldAlike(m, ask, ask)
  {
  }

  /** If, before every chain it fuses, the chain's slots but the result's are empty or name
      no slice, the fused machine ends as the let-by-let machine does: whatever handlers
      and cleanups are installed, whatever is performed, resumed and abandoned. */
  lemma TidyEndsAlike(p: Program, w: World, deep: set<nat>, st: State, n: nat) returns (k: nat)
    requires RunBy(p, w, st, n).focus.Stopped? && AllTidy(p, w, deep, st, Plain(), n)
    ensures SeenAlike(RunBy(p, w, st, n), FRunBy(p, w, deep, st, k))
  {
    Same(st, Plain());
    TidyAlong(p, w, deep, st, st, n);
    k := RunsMeet(p, w, deep, st, st, Plain(), n);
  }
}
