/** The evaluator and the machine say the same: where the evaluator answers, the machine
    returns that answer to the continuation it was started on, which it has not touched. */
module Evaluated {
  import opened Common
  import opened Ir
  import opened Fusion
  import opened Driver
  import opened Fusing

  /** From `st` the machine has come to return what the evaluator answers: the stack and
      the slices are as they were, and so is every activation but `f`. */
  ghost predicate Answers(st: State, s: State, f: nat, r: Outcome)
    requires r.Done?
  {
    && s.focus == Return(r.value) && s.kont == st.kont && s.slices == st.slices
    && st.trace <= s.trace && |s.trace| == r.tick
    && |st.frames| <= |s.frames| && f < |st.frames| && s.frames[f] == r.frame
    && (forall g :: 0 <= g < |st.frames| && g != f ==> s.frames[g] == st.frames[g])
  }

  /** For `n` steps the counts are not asked. */
  ghost predicate Quiet(p: Program, w: World, st: State, n: nat)
    decreases n
  {
    n > 0 ==> !AtBoundary(st) && !AtResume(st) && Quiet(p, w, Step(p, w, st, Counts(st)), n - 1)
  }

  lemma {:induction false} QuietOn(p: Program, w: World, st: State, a: nat, b: nat)
    ensures Quiet(p, w, st, a) && Quiet(p, w, RunBy(p, w, st, a), b) ==> Quiet(p, w, st, a + b)
    ensures Quiet(p, w, st, a + b) ==> Quiet(p, w, RunBy(p, w, st, a), b)
    decreases a
  {
    hide Step, Counts;
    if a > 0 {
      QuietOn(p, w, Step(p, w, st, Counts(st)), a - 1, b);
    }
  }

  lemma ActivationIsEnter(p: Program, code: nat, env: seq<Val>, arg: Val)
    requires code < |p.codes| && p.codes[code].nlocals > 0
    ensures Activation(p, Clo(code, env), [arg]) == Some(Enter(p, code, env, arg))
  {
    var a := Activation(p, Clo(code, env), [arg]).value;
    assert a.locals == Enter(p, code, env, arg).locals;
  }

  lemma Then(p: Program, w: World, st: State, s: State, n: nat)
    requires Step(p, w, st, Counts(st)) == s
    ensures RunBy(p, w, st, n + 1) == RunBy(p, w, s, n)
    ensures !AtBoundary(st) && !AtResume(st) && Quiet(p, w, s, n) ==> Quiet(p, w, st, n + 1)
  {
    hide Step, Counts;
  }

  lemma LeafRuns(p: Program, w: World, st: State, f: nat, e: Expr, fuel: nat)
    requires IsLeaf(e) && st.focus == Run(f, e) && f < |st.frames| && Eval(p, w, e, st.frames[f], |st.trace|, fuel).Done?
    ensures Answers(st, Step(p, w, st, Counts(st)), f, Eval(p, w, e, st.frames[f], |st.trace|, fuel))
  {
    hide Counts, ReadAtom, ReadAtoms;
    assert Eval(p, w, e, st.frames[f], |st.trace|, 0) == Eval(p, w, e, st.frames[f], |st.trace|, fuel);
  }

  lemma OneQuiet(p: Program, w: World, st: State)
    ensures !AtBoundary(st) && !AtResume(st) ==> Quiet(p, w, st, 1)
  {
    hide Step, Counts;
    assert Quiet(p, w, Step(p, w, st, Counts(st)), 0);
  }

  lemma LeafAnswers(p: Program, w: World, st: State, f: nat, e: Expr, fuel: nat)
    requires IsLeaf(e) && st.focus == Run(f, e) && f < |st.frames| && Eval(p, w, e, st.frames[f], |st.trace|, fuel).Done?
    ensures Answers(st, RunBy(p, w, st, 1), f, Eval(p, w, e, st.frames[f], |st.trace|, fuel)) && Quiet(p, w, st, 1)
  {
    LeafRuns(p, w, st, f, e, fuel);
    OneStep(p, w, st);
    OneQuiet(p, w, st);
    assert !AtBoundary(st) && !AtResume(st);
    hide Step, Counts, RunBy, Quiet, Eval, Answers;
  }

  /** Past a delivery to a let: what was answered before and after. */
  lemma Joined(st: State, a: State, b: State, s: State, f: nat, slot: nat, body: Expr, r: Outcome, q: Outcome)
    requires r.Done? && q.Done? && slot < |r.frame.locals| && f < |st.frames|
    requires Answers(st.(kont := st.kont + [KRet(f, slot, body)]), a, f, r)
    requires b == a.(kont := st.kont, frames := a.frames[f := Filled(r.frame, slot, r.value)], focus := Run(f, body))
    requires Answers(b, s, f, q)
    ensures Answers(st, s, f, q)
  {
  }

  lemma {:induction false} EvalRuns(p: Program, w: World, st: State, f: nat, e: Expr, fuel: nat) returns (n: nat)
    requires st.focus == Run(f, e) && f < |st.frames| && Eval(p, w, e, st.frames[f], |st.trace|, fuel).Done?
    ensures Answers(st, RunBy(p, w, st, n), f, Eval(p, w, e, st.frames[f], |st.trace|, fuel))
    ensures Quiet(p, w, st, n)
    decreases fuel, 1, e
  {
    hide Answers, Counts, ReadAtom, ReadAtoms, Chosen, RunBy, Quiet;
    var fr, tick := st.frames[f], |st.trace|;
    n := 1;
    match e
    case Let(slot, rhs, body) => n := LetAnswers(p, w, st, f, slot, rhs, body, fuel);
    case App(fun, arg) =>
      var g := ReadAtom(p, w, fun, fr, tick);
      var h := ReadAtom(p, w, arg, g.frame, tick);
      var called := st.(frames := st.frames[f := h.frame], focus := Call(f, g.value, h.value));
      assert Step(p, w, st, Counts(st)) == called;
      assert called.frames[f] == h.frame;
      var m := CallRuns(p, w, called, f, fuel);
      Then(p, w, st, called, m);
      n := m + 1;
      Moved1(st, called, RunBy(p, w, called, m), f, Eval(p, w, e, fr, tick, fuel));
    case Case(scrut, alts, default) =>
      var g := ReadAtom(p, w, scrut, fr, tick);
      var v := w.force(g.value, tick).value;
      var k := Select(alts, v);
      var next := if k == |alts| then default else alts[k].body;
      var at := if k == |alts| then g.frame else Chosen(alts[k], v, g.frame);
      var looked := st.(trace := st.trace + [Forced(g.value)], frames := st.frames[f := at], focus := Run(f, next));
      assert Step(p, w, st, Counts(st)) == looked;
      assert looked.frames[f] == at;
      var m := EvalRuns(p, w, looked, f, next, fuel);
      Then(p, w, st, looked, m);
      n := m + 1;
      Moved1(st, looked, RunBy(p, w, looked, m), f, Eval(p, w, e, fr, tick, fuel));
    case Drop(slots, body) =>
      var next := st.(frames := st.frames[f := fr.(locals := Clear(fr.locals, slots))], focus := Run(f, body));
      assert Step(p, w, st, Counts(st)) == next;
      var m := EvalRuns(p, w, next, f, body, fuel);
      Then(p, w, st, next, m);
      n := m + 1;
      Moved1(st, next, RunBy(p, w, next, m), f, Eval(p, w, e, fr, tick, fuel));
    case Ret(_) => LeafAnswers(p, w, st, f, e, fuel);
    case Build(_, _) => LeafAnswers(p, w, st, f, e, fuel);
    case Access(_, _, _) => LeafAnswers(p, w, st, f, e, fuel);
    case _ => assert false;
  }

  /** A step that changed only activation `f` and what has been asked. */
  lemma Moved1(st: State, mid: State, s: State, f: nat, r: Outcome)
    requires r.Done? && f < |st.frames| && Answers(mid, s, f, r)
    requires mid.kont == st.kont && mid.slices == st.slices && |mid.frames| == |st.frames| && st.trace <= mid.trace
    requires forall g :: 0 <= g < |st.frames| && g != f ==> mid.frames[g] == st.frames[g]
    ensures Answers(st, s, f, r)
  {
  }

  lemma LetAnswers(p: Program, w: World, st: State, f: nat, slot: nat, rhs: Expr, body: Expr, fuel: nat) returns (n: nat)
    requires st.focus == Run(f, Let(slot, rhs, body)) && f < |st.frames| && Eval(p, w, Let(slot, rhs, body), st.frames[f], |st.trace|, fuel).Done?
    ensures Answers(st, RunBy(p, w, st, n), f, Eval(p, w, Let(slot, rhs, body), st.frames[f], |st.trace|, fuel))
    ensures Quiet(p, w, st, n)
    decreases fuel, 1, Let(slot, rhs, body), 0
  {
    hide Counts, RunBy, Quiet;
    var fr, tick, k := st.frames[f], |st.trace|, KRet(f, slot, body);
    var r := Eval(p, w, rhs, fr, tick, fuel);
    var pushed := st.(kont := st.kont + [k], focus := Run(f, rhs));
    assert Step(p, w, st, Counts(st)) == pushed;
    var a := EvalRuns(p, w, pushed, f, rhs, fuel);
    var back := RunBy(p, w, pushed, a);
    Then(p, w, st, pushed, a);
    assert back.kont[..|back.kont| - 1] == st.kont;
    Pops(p, back, k, r.value, Counts(back));
    var filled := back.(kont := st.kont, frames := back.frames[f := Filled(r.frame, slot, r.value)], focus := Run(f, body));
    var b := EvalRuns(p, w, filled, f, body, fuel);
    Then(p, w, back, filled, b);
    RunOn(p, w, st, a + 1, b + 1);
    QuietOn(p, w, st, a + 1, b + 1);
    n := a + 1 + (b + 1);
    Joined(st, back, filled, RunBy(p, w, filled, b), f, slot, body, r, Eval(p, w, body, filled.frames[f], |filled.trace|, fuel));
  }

  lemma CallRuns(p: Program, w: World, st: State, f: nat, fuel: nat) returns (n: nat)
    requires st.focus.Call? && st.focus.frame == f && f < |st.frames|
    requires Apply(p, w, st.focus.fun, st.focus.arg, st.frames[f], |st.trace|, fuel).Done?
    ensures Answers(st, RunBy(p, w, st, n), f, Apply(p, w, st.focus.fun, st.focus.arg, st.frames[f], |st.trace|, fuel))
    ensures Quiet(p, w, st, n)
    decreases fuel, 0, Fail
  {
    hide Counts, RunBy, Quiet;
    var fun, arg := st.focus.fun, st.focus.arg;
    if fun.Clo? {
      ActivationIsEnter(p, fun.code, fun.env, arg);
      var body, f' := p.codes[fun.code].body, |st.frames|;
      var entered := st.(frames := st.frames + [Enter(p, fun.code, fun.env, arg)], focus := Run(f', body));
      assert Step(p, w, st, Counts(st)) == entered;
      n := EvalRuns(p, w, entered, f', body, fuel - 1);
      Then(p, w, st, entered, n);
      n := n + 1;
    } else {
      assert Apply(p, w, fun, arg, st.frames[f], |st.trace|, 0) == Apply(p, w, fun, arg, st.frames[f], |st.trace|, fuel);
      OneStep(p, w, st);
      OneQuiet(p, w, st);
      n := 1;
    }
  }

  lemma {:induction false} QuietAgreed(p: Program, w: World, deep: set<nat>, m: State, m': State, n: nat)
    requires Quiet(p, w, m, n)
    ensures Agreed(p, w, deep, m, m', n)
    decreases n
  {
    hide Counts, Step, TurnLength, FTurn, RunBy;
    if n > 0 && !Ended(m) {
      var k := TurnLength(p, deep, m);
      if k <= n {
        QuietOn(p, w, m, k, n - k);
        QuietAgreed(p, w, deep, Turn(p, w, deep, m), FTurn(p, w, deep, m'), n - k);
      } else {
        NotFurther(p, w, deep, Turn(p, w, deep, m), FTurn(p, w, deep, m'));
      }
    }
  }

  lemma NotFurther(p: Program, w: World, deep: set<nat>, m: State, m': State)
    ensures Agreed(p, w, deep, m, m', 0)
  {
  }

  /** Code the evaluator answers for on its own, whatever its slots hold: both machines end
      with that answer, having asked the runtime the same questions, as many as it asked. */
  lemma AnswersFused(p: Program, w: World, deep: set<nat>, st: State, f: nat, e: Expr, fuel: nat) returns (n: nat, k: nat)
    requires st.focus == Run(f, e) && f < |st.frames| && st.kont == [] && Eval(p, w, e, st.frames[f], |st.trace|, fuel).Done?
    ensures var r, s, s' := Eval(p, w, e, st.frames[f], |st.trace|, fuel), RunBy(p, w, st, n), FRunBy(p, w, deep, st, k);
            s.focus == Stopped(r.value) && |s.trace| == r.tick && SeenAlike(s, s')
  {
    hide RunBy, FRunBy, Eval, Counts, Quiet, Agreed;
    var m := EvalRuns(p, w, st, f, e, fuel);
    var back := RunBy(p, w, st, m);
    OneStep(p, w, back);
    OneQuiet(p, w, back);
    RunOn(p, w, st, m, 1);
    QuietOn(p, w, st, m, 1);
    n := m + 1;
    QuietAgreed(p, w, deep, st, st, n);
    k := FusedEndsAlike(p, w, deep, st, n);
  }
}
