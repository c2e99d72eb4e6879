/** What the machine's steps do, place by place: which alternative a case goes on in and
    what its binders hold, which clause an operation runs and on what, what a resume puts
    back, and in what order cleanups are queued. */
module Stepping {
  import opened Common
  import opened Ordering
  import opened Ir
  import opened Fusion
  import opened Driver

  // ---- case ---------------------------------------------------------------

  /** The first alternative for `kind`. */
  predicate FirstFor(alts: seq<Alt>, kind: AltKind, k: nat) {
    k < |alts| && alts[k].kind == kind && forall j :: 0 <= j < k ==> alts[j].kind != kind
  }

  predicate NoneFor(alts: seq<Alt>, kind: AltKind) {
    forall j :: 0 <= j < |alts| ==> alts[j].kind != kind
  }

  predicate ForConstructor(kind: AltKind, v: Val) {
    v.Data? && kind == OnCon(v.tag)
  }

  predicate ForLiteral(kind: AltKind, v: Val) {
    (v.Int? && kind == OnInt(v.value)) || (v.Other? && kind == OnLit(v.literal))
  }

  /** Binder `i` that is read holds field `i`; a scrutinee that dies leaves its slot and the
      token's empty; every other slot, and the captured record, are as they were. */
  predicate Unpacked(fr: Frame, fr': Frame, alt: Alt, fields: seq<Val>) {
    && |fr'.locals| == |fr.locals| && fr'.env == fr.env
    && forall j :: 0 <= j < |fr.locals| ==>
         fr'.locals[j] ==
           if alt.base <= j < alt.base + |alt.binders| && j - alt.base < |fields| && alt.binders[j - alt.base] then Some(fields[j - alt.base])
           else if alt.unpack.Consume? && (j == alt.unpack.slot || Some(j) == alt.unpack.token) then None
           else fr.locals[j]
  }

  lemma {:induction false} SelectIsFirst(alts: seq<Alt>, v: Val, kind: AltKind)
    requires ForConstructor(kind, v) || ForLiteral(kind, v)
    ensures var k := Select(alts, v); if k == |alts| then NoneFor(alts, kind) else FirstFor(alts, kind, k)
  {
    if |alts| > 0 && alts[0].kind != kind {
      SelectIsFirst(alts[1..], v, kind);
      var k := Select(alts, v);
      assert forall j :: 0 < j < |alts| ==> alts[j] == alts[1..][j - 1];
    }
  }

  lemma {:induction false} SelectNothing(alts: seq<Alt>, v: Val)
    requires !v.Data? && !v.Int? && !v.Other?
    ensures Select(alts, v) == |alts|
  {
    if |alts| > 0 {
      SelectNothing(alts[1..], v);
    }
  }

  lemma {:induction false} BindAt(locals: seq<Option<Val>>, base: nat, binders: seq<bool>, fields: seq<Val>, j: nat)
    requires j < |locals|
    ensures Bind(locals, base, binders, fields)[j] ==
              if base <= j < base + |binders| && j - base < |fields| && binders[j - base] then Some(fields[j - base]) else locals[j]
    decreases |binders|
  {
    if |binders| > 0 && |fields| > 0 {
      BindAt(if binders[0] && base < |locals| then locals[base := Some(fields[0])] else locals, base + 1, binders[1..], fields[1..], j);
    }
  }

  lemma EmptiesAt(locals: seq<Option<Val>>, unpack: Unpack, j: nat)
    requires j < |locals|
    ensures Empties(locals, unpack)[j] == if unpack.Consume? && (j == unpack.slot || Some(j) == unpack.token) then None else locals[j]
  {
    if unpack.Consume? {
      Cleared(locals, [unpack.slot]);
      Cleared(Clear(locals, [unpack.slot]), if unpack.token.Some? then [unpack.token.value] else []);
    }
  }

  lemma ChosenUnpacks(alt: Alt, v: Val, fr: Frame)
    requires v.Data? && alt.kind == OnCon(v.tag)
    ensures Matches(alt.kind, v) && Unpacked(fr, Chosen(alt, v, fr), alt, v.fields)
  {
    hide Bind, Empties;
    forall j | 0 <= j < |fr.locals|
      ensures Chosen(alt, v, fr).locals[j] ==
                if alt.base <= j < alt.base + |alt.binders| && j - alt.base < |v.fields| && alt.binders[j - alt.base] then Some(v.fields[j - alt.base])
                else if alt.unpack.Consume? && (j == alt.unpack.slot || Some(j) == alt.unpack.token) then None
                else fr.locals[j]
    {
      BindAt(Empties(fr.locals, alt.unpack), alt.base, alt.binders, v.fields, j);
      EmptiesAt(fr.locals, alt.unpack, j);
    }
  }

  /** How a case on `v` goes on in activation `fr`: in code `next`, the activation then
      being `fr'`. */
  ghost predicate GoesOn(alts: seq<Alt>, default: Expr, v: Val, fr: Frame, next: Expr, fr': Frame) {
    match v
    case Data(tag, fields) =>
      && (forall k: nat :: FirstFor(alts, OnCon(tag), k) ==> next == alts[k].body && Unpacked(fr, fr', alts[k], fields))
      && (NoneFor(alts, OnCon(tag)) ==> next == default && fr' == fr)
    case Int(n) => OnLiteral(alts, default, OnInt(n), fr, next, fr')
    case Other(n) => OnLiteral(alts, default, OnLit(n), fr, next, fr')
    case _ => next == default && fr' == fr
  }

  ghost predicate OnLiteral(alts: seq<Alt>, default: Expr, kind: AltKind, fr: Frame, next: Expr, fr': Frame) {
    && (forall k: nat :: FirstFor(alts, kind, k) ==> next == alts[k].body && fr' == fr)
    && (NoneFor(alts, kind) ==> next == default && fr' == fr)
  }

  lemma FirstIsOne(alts: seq<Alt>, kind: AltKind, k: nat)
    requires FirstFor(alts, kind, k)
    ensures !NoneFor(alts, kind) && forall j: nat :: FirstFor(alts, kind, j) ==> j == k
  {
  }

  lemma NoneIsNone(alts: seq<Alt>, kind: AltKind)
    requires NoneFor(alts, kind)
    ensures forall j: nat :: !FirstFor(alts, kind, j)
  {
  }

  lemma SelectionGoesOn(alts: seq<Alt>, default: Expr, v: Val, fr: Frame)
    ensures var k := Select(alts, v);
            GoesOn(alts, default, v, fr, if k == |alts| then default else alts[k].body, if k == |alts| then fr else Chosen(alts[k], v, fr))
  {
    if v.Data? || v.Int? || v.Other? {
      var kind, k := if v.Data? then OnCon(v.tag) else if v.Int? then OnInt(v.value) else OnLit(v.literal), Select(alts, v);
      SelectIsFirst(alts, v, kind);
      if k < |alts| {
        FirstIsOne(alts, kind, k);
        if v.Data? {
          ChosenUnpacks(alts[k], v, fr);
        }
      } else {
        NoneIsNone(alts, kind);
      }
      hide Select, Unpacked, FirstFor, NoneFor, Bind, Empties;
    } else {
      SelectNothing(alts, v);
    }
  }

  /** A case of the machine goes on in the first alternative for the value's constructor,
      with its binders holding the fields; in the first for its literal; or, exactly when
      there is none, in the default. */
  lemma CaseGoesOn(p: Program, w: World, st: State, f: nat, scrut: Atom, alts: seq<Alt>, default: Expr, ask: Ask)
    requires st.focus == Run(f, Case(scrut, alts, default)) && f < |st.frames|
    requires var g := ReadAtom(p, w, scrut, st.frames[f], |st.trace|); g.Got? && w.force(g.value, |st.trace|).Some?
    ensures var g, s := ReadAtom(p, w, scrut, st.frames[f], |st.trace|), Step(p, w, st, ask);
            && s.focus.Run? && s.focus.frame == f && |s.frames| == |st.frames| && s.kont == st.kont && s.slices == st.slices
            && GoesOn(alts, default, w.force(g.value, |st.trace|).value, g.frame, s.focus.code, s.frames[f])
            && forall i :: 0 <= i < |st.frames| && i != f ==> s.frames[i] == st.frames[i]
  {
    var g := ReadAtom(p, w, scrut, st.frames[f], |st.trace|);
    SelectionGoesOn(alts, default, w.force(g.value, |st.trace|).value, g.frame);
    hide GoesOn, ReadAtom, Chosen;
  }

  /** And so does the evaluator. */
  lemma CaseEvaluates(p: Program, w: World, scrut: Atom, alts: seq<Alt>, default: Expr, fr: Frame, tick: nat, fuel: nat)
      returns (next: Expr, fr': Frame)
    requires var g := ReadAtom(p, w, scrut, fr, tick); g.Got? && w.force(g.value, tick).Some?
    ensures var g := ReadAtom(p, w, scrut, fr, tick); GoesOn(alts, default, w.force(g.value, tick).value, g.frame, next, fr')
    ensures Eval(p, w, Case(scrut, alts, default), fr, tick, fuel) == Eval(p, w, next, fr', tick + 1, fuel)
  {
    var g := ReadAtom(p, w, scrut, fr, tick);
    var v := w.force(g.value, tick).value;
    var k := Select(alts, v);
    next, fr' := if k == |alts| then default else alts[k].body, if k == |alts| then g.frame else Chosen(alts[k], v, g.frame);
    SelectionGoesOn(alts, default, v, g.frame);
    hide GoesOn, ReadAtom, Chosen;
  }

  // ---- operands -----------------------------------------------------------

  /** All but slot `i` of a row is as it was, and that is empty. */
  predicate TakenOut(row: seq<Option<Val>>, row': seq<Option<Val>>, i: nat) {
    && |row'| == |row| && i < |row| && row'[i].None? && forall j :: 0 <= j < |row| && j != i ==> row'[j] == row[j]
  }

  /** Reading a slot or a captured field yields what is there, and nothing if it is empty;
      the last use of it leaves it empty, and no reading changes anything else. */
  lemma SlotReads(p: Program, w: World, i: nat, fr: Frame, tick: nat)
    ensures var g := ReadAtom(p, w, Local(i), fr, tick);
            (g.Got? <==> i < |fr.locals| && fr.locals[i].Some?) && (g.Got? ==> fr.locals[i] == Some(g.value) && g.frame == fr)
    ensures var g := ReadAtom(p, w, Move(i), fr, tick);
            && (g.Got? <==> i < |fr.locals| && fr.locals[i].Some?)
            && (g.Got? ==> fr.locals[i] == Some(g.value) && TakenOut(fr.locals, g.frame.locals, i) && g.frame.env == fr.env)
    ensures var g := ReadAtom(p, w, Env(i), fr, tick);
            (g.Got? <==> i < |fr.env| && fr.env[i].Some?) && (g.Got? ==> fr.env[i] == Some(g.value) && g.frame == fr)
    ensures var g := ReadAtom(p, w, MoveEnv(i), fr, tick);
            && (g.Got? <==> i < |fr.env| && fr.env[i].Some?)
            && (g.Got? ==> fr.env[i] == Some(g.value) && TakenOut(fr.env, g.frame.env, i) && g.frame.locals == fr.locals)
  {
  }

  /** A literal is itself, a foreign function has been given nothing, and a closure holds
      what its captures read, in order. */
  lemma LiteralReads(p: Program, w: World, n: int, k: nat, arity: nat, code: nat, captures: seq<Atom>, fr: Frame, tick: nat)
    ensures ReadAtom(p, w, LitI(n), fr, tick) == Got(Int(n), fr) && ReadAtom(p, w, Lit(k), fr, tick) == Got(Other(k), fr)
    ensures ReadAtom(p, w, Atom.Foreign(k, arity), fr, tick) == Got(Ext(k, arity, []), fr)
    ensures var g, vs := ReadAtom(p, w, Atom.Clos(code, captures), fr, tick), ReadAtoms(p, w, captures, fr, tick);
            (g.Got? <==> vs.Gots?) && (g.Got? ==> g.value == Clo(code, vs.values) && g.frame == vs.frame)
  {
  }

  /** A global is the runtime's to compute, unless its code only names a closure without
      captures or a foreign function; a built-in has been given nothing; and an effect
      operation is the one declared. */
  lemma GlobalReads(p: Program, w: World, name: nat, fr: Frame, tick: nat)
    ensures var g := ReadAtom(p, w, Glob(name), fr, tick);
            && (name in p.globals ==>
                  var caf := p.globals[name];
                  && (caf < |p.codes| && p.codes[caf].body.Ret? && p.codes[caf].body.atom.Clos? && p.codes[caf].body.atom.captures == [] ==>
                        g == Got(Clo(p.codes[caf].body.atom.code, []), fr))
                  && (caf < |p.codes| && p.codes[caf].body.Ret? && p.codes[caf].body.atom.Foreign? ==>
                        g == Got(Ext(p.codes[caf].body.atom.idx, p.codes[caf].body.atom.arity, []), fr))
                  && (caf < |p.codes| && !p.codes[caf].body.Ret? && !p.codes[caf].body.Drop? ==>
                        g == if w.caf(name, tick).Some? then Got(w.caf(name, tick).value, fr) else Missing))
            && (name !in p.globals && name in p.builtins ==> g == Got(Prim(name, []), fr))
            && (name !in p.globals && name !in p.builtins ==>
                  g == if name in p.operations then Got(Operation(p.operations[name].0, p.operations[name].1), fr) else Missing)
  {
  }

  /** A construction holds what its operands read, in order. */
  lemma BuildHolds(p: Program, w: World, st: State, f: nat, tag: nat, fields: seq<Atom>, ask: Ask)
    requires st.focus == Run(f, Build(tag, fields)) && f < |st.frames| && ReadAtoms(p, w, fields, st.frames[f], |st.trace|).Gots?
    ensures var vs := ReadAtoms(p, w, fields, st.frames[f], |st.trace|);
            Step(p, w, st, ask) == st.(frames := st.frames[f := vs.frame], focus := Return(Data(tag, vs.values)))
  {
  }

  /** Operands are read in order, each in the activation the ones before leave. */
  lemma {:induction false} OperandsInOrder(p: Program, w: World, atoms: seq<Atom>, fr: Frame, tick: nat, i: nat)
    requires ReadAtoms(p, w, atoms, fr, tick).Gots? && i < |atoms|
    ensures |ReadAtoms(p, w, atoms, fr, tick).values| == |atoms| && ReadAtoms(p, w, atoms[..i], fr, tick).Gots?
    ensures var g := ReadAtom(p, w, atoms[i], ReadAtoms(p, w, atoms[..i], fr, tick).frame, tick);
            g.Got? && g.value == ReadAtoms(p, w, atoms, fr, tick).values[i]
    decreases |atoms|
  {
    GotAsMany(p, w, atoms, fr, tick);
    if i > 0 {
      var first := ReadAtom(p, w, atoms[0], fr, tick);
      OperandsInOrder(p, w, atoms[1..], first.frame, tick, i - 1);
      assert atoms[..i][1..] == atoms[1..][..i - 1];
    }
  }

  // ---- handlers -----------------------------------------------------------

  /** The clause `j` of the prompt is for the operation, and as often usable, as clause `j`
      of the handler says, and is the value its operand read. */
  predicate Installs(clauses: seq<OnOp>, values: seq<Val>, k: K) {
    && k.KPrompt? && |k.clauses| == |clauses| && |values| == |clauses| + 1 && k.els == values[|clauses|]
    && forall j :: 0 <= j < |clauses| ==> k.clauses[j] == Clause(clauses[j].effect, clauses[j].op, clauses[j].uses, values[j])
  }

  /** A handler reads its clauses in order, and then the value clause; its body runs above
      the prompt.  A cleanup's body runs above the cleanup, and a let's right side above
      the let. */
  lemma HandlerInstalls(p: Program, w: World, st: State, f: nat, body: Expr, clauses: seq<OnOp>, els: Atom, ask: Ask)
    requires st.focus == Run(f, Handle(body, clauses, els)) && f < |st.frames|
    requires ReadAtoms(p, w, Funs(clauses) + [els], st.frames[f], |st.trace|).Gots?
    ensures var s, g := Step(p, w, st, ask), ReadAtoms(p, w, Funs(clauses) + [els], st.frames[f], |st.trace|);
            && |s.kont| == |st.kont| + 1 && s.kont[..|st.kont|] == st.kont && Installs(clauses, g.values, s.kont[|st.kont|])
            && s.focus == Run(f, body) && s.frames == st.frames[f := g.frame] && s.slices == st.slices && s.trace == st.trace
    ensures forall j :: 0 <= j < |clauses| ==> (Funs(clauses) + [els])[j] == clauses[j].fun
  {
    GotAsMany(p, w, Funs(clauses) + [els], st.frames[f], |st.trace|);
    hide ReadAtoms;
  }

  lemma LetInstalls(p: Program, w: World, st: State, f: nat, e: Expr, ask: Ask)
    requires st.focus == Run(f, e) && f < |st.frames|
    ensures e.Let? ==> Step(p, w, st, ask) == st.(kont := st.kont + [KRet(f, e.slot, e.body)], focus := Run(f, e.rhs))
    ensures e.Defer? && ReadAtom(p, w, e.cleanup, st.frames[f], |st.trace|).Got? ==>
              var g := ReadAtom(p, w, e.cleanup, st.frames[f], |st.trace|);
              Step(p, w, st, ask) == st.(frames := st.frames[f := g.frame], kont := st.kont + [KDefer(g.value)], focus := Run(f, e.body))
  {
    hide ReadAtom;
  }

  // ---- what is named ------------------------------------------------------

  /** A resumption of the slice is `v`, or somewhere inside it. */
  predicate Within(r: nat, v: Val)
    decreases v
  {
    match v
    case Resumption(q) => q == r
    case Clo(_, env) => exists i :: 0 <= i < |env| && Within(r, env[i])
    case Data(_, fields) => exists i :: 0 <= i < |fields| && Within(r, fields[i])
    case Prim(_, args) => exists i :: 0 <= i < |args| && Within(r, args[i])
    case Ext(_, _, args) => exists i :: 0 <= i < |args| && Within(r, args[i])
    case _ => false
  }

  lemma {:induction false} NamesAreWithin(v: Val, r: nat)
    ensures r in Names(v) <==> Within(r, v)
    decreases v
  {
    match v
    case Clo(_, env) => AllAreWithin(env, r);
    case Data(_, fields) => AllAreWithin(fields, r);
    case Prim(_, args) => AllAreWithin(args, r);
    case Ext(_, _, args) => AllAreWithin(args, r);
    case _ =>
  }

  lemma {:induction false} AllAreWithin(vs: seq<Val>, r: nat)
    ensures r in NamesAll(vs) <==> exists i :: 0 <= i < |vs| && Within(r, vs[i])
    decreases vs
  {
    if |vs| > 0 {
      NamesAreWithin(vs[0], r);
      AllAreWithin(vs[1..], r);
      assert forall i :: 0 < i < |vs| ==> vs[i] == vs[1..][i - 1];
      assert forall i :: 0 <= i < |vs| - 1 ==> vs[1..][i] == vs[i + 1];
    }
  }

  /** What holds the slice in a frame of the stack: a clause or the value clause, a cleanup,
      or a saved value; never a boundary. */
  predicate HeldBy(r: nat, k: K) {
    match k
    case KPrompt(clauses, els) => Within(r, els) || exists j :: 0 <= j < |clauses| && Within(r, clauses[j].fun)
    case KDefer(cleanup) => Within(r, cleanup)
    case KThunkRet(saved) => Within(r, saved)
    case KCleanups(cleanups) => exists j :: 0 <= j < |cleanups| && Within(r, cleanups[j])
    case _ => false
  }

  lemma {:induction false} ClausesHold(clauses: seq<Clause>, r: nat)
    ensures r in ClauseNames(clauses) <==> exists j :: 0 <= j < |clauses| && Within(r, clauses[j].fun)
  {
    if |clauses| > 0 {
      NamesAreWithin(clauses[0].fun, r);
      ClausesHold(clauses[1..], r);
      assert forall i :: 0 < i < |clauses| ==> clauses[i] == clauses[1..][i - 1];
      assert forall i :: 0 <= i < |clauses| - 1 ==> clauses[1..][i] == clauses[i + 1];
    }
  }

  lemma FrameHolds(k: K, r: nat)
    ensures r in KNames(k) <==> HeldBy(r, k)
  {
    hide Within, Names;
    match k
    case KPrompt(clauses, els) =>
      ClausesHold(clauses, r);
      NamesAreWithin(els, r);
    case KDefer(cleanup) => NamesAreWithin(cleanup, r);
    case KThunkRet(saved) => NamesAreWithin(saved, r);
    case KCleanups(cleanups) => AllAreWithin(cleanups, r);
    case _ =>
  }

  // ---- operations ---------------------------------------------------------

  /** A clause handles an operation of its name, unless both name effects that differ. */
  predicate ForOperation(c: Clause, effect: Option<nat>, op: nat) {
    c.op == op && match (c.effect, effect) { case (Some(x), Some(y)) => x == y case _ => true }
  }

  predicate Passes(k: K, effect: Option<nat>, op: nat) {
    k.KPrompt? ==> forall j :: 0 <= j < |k.clauses| ==> !ForOperation(k.clauses[j], effect, op)
  }

  lemma {:induction false} ClauseIsFirst(clauses: seq<Clause>, effect: Option<nat>, op: nat, j: nat)
    requires j < |clauses| && ForOperation(clauses[j], effect, op)
    requires forall i :: 0 <= i < j ==> !ForOperation(clauses[i], effect, op)
    ensures ClauseFor(clauses, effect, op) == Some(clauses[j])
  {
    if j > 0 {
      assert !ForOperation(clauses[0], effect, op);
      ClauseIsFirst(clauses[1..], effect, op, j - 1);
    }
  }

  lemma {:induction false} NoClauseFor(clauses: seq<Clause>, effect: Option<nat>, op: nat)
    requires forall i :: 0 <= i < |clauses| ==> !ForOperation(clauses[i], effect, op)
    ensures ClauseFor(clauses, effect, op).None?
  {
    if |clauses| > 0 {
      assert !ForOperation(clauses[0], effect, op);
      NoClauseFor(clauses[1..], effect, op);
    }
  }

  lemma {:induction false} PromptIsNearest(kont: seq<K>, effect: Option<nat>, op: nat, n: nat, j: nat)
    requires n < |kont| && kont[n].KPrompt? && j < |kont[n].clauses| && ForOperation(kont[n].clauses[j], effect, op)
    requires forall i :: 0 <= i < j ==> !ForOperation(kont[n].clauses[i], effect, op)
    requires forall q :: n < q < |kont| ==> Passes(kont[q], effect, op)
    ensures PromptFor(kont, effect, op) == Some((n, kont[n].clauses[j]))
    decreases |kont|
  {
    hide ForOperation;
    var last := |kont| - 1;
    if last == n {
      ClauseIsFirst(kont[n].clauses, effect, op, j);
    } else {
      assert Passes(kont[last], effect, op);
      if kont[last].KPrompt? {
        NoClauseFor(kont[last].clauses, effect, op);
      }
      PromptIsNearest(kont[..last], effect, op, n, j);
    }
  }

  lemma {:induction false} NoPrompt(kont: seq<K>, effect: Option<nat>, op: nat)
    requires forall q :: 0 <= q < |kont| ==> Passes(kont[q], effect, op)
    ensures PromptFor(kont, effect, op).None?
    decreases |kont|
  {
    hide ForOperation;
    if |kont| > 0 {
      assert Passes(kont[|kont| - 1], effect, op);
      if kont[|kont| - 1].KPrompt? {
        NoClauseFor(kont[|kont| - 1].clauses, effect, op);
      }
      NoPrompt(kont[..|kont| - 1], effect, op);
    }
  }

  predicate RoomFor(p: Program, f: Val, n: nat) {
    f.Clo? && f.code < |p.codes| && n <= p.codes[f.code].nlocals
  }

  /** The activation of closure `f` on `args`: the arguments in the leading slots, the
      others empty, and the captured record in order. */
  predicate On(p: Program, fr: Frame, f: Val, args: seq<Val>)
    requires RoomFor(p, f, |args|)
  {
    && |fr.locals| == p.codes[f.code].nlocals && |fr.env| == |f.env|
    && (forall i :: 0 <= i < |args| ==> fr.locals[i] == Some(args[i]))
    && (forall i :: |args| <= i < |fr.locals| ==> fr.locals[i].None?)
    && (forall i :: 0 <= i < |f.env| ==> fr.env[i] == Some(f.env[i]))
  }

  /** Control is at the start of closure `f`'s code, in a fresh activation on `args`. */
  predicate Entered(p: Program, st: State, s: State, f: Val, args: seq<Val>)
    requires RoomFor(p, f, |args|)
  {
    && |s.frames| == |st.frames| + 1 && s.frames[..|st.frames|] == st.frames && s.trace == st.trace
    && s.focus == Run(|st.frames|, p.codes[f.code].body) && On(p, s.frames[|st.frames|], f, args)
  }

  lemma EntersOn(p: Program, st: State, f: Val, args: seq<Val>)
    requires RoomFor(p, f, |args|)
    ensures var s := EnterCode(p, st, f, args); Entered(p, st, s, f, args) && s.kont == st.kont && s.slices == st.slices
  {
  }

  /** An operation runs the first clause for it of the nearest prompt that has one, on the
      argument in slot 0; the frames from that prompt up are in a slice whose resumption is
      in slot 1, or, if the clause cannot resume, are gone but for their cleanups. */
  lemma OperationLands(p: Program, w: World, st: State, f: nat, effect: Option<nat>, op: nat, arg: Val, n: nat, j: nat, ask: Ask)
    requires st.focus == Call(f, Operation(effect, op), arg) && f < |st.frames|
    requires n < |st.kont| && st.kont[n].KPrompt? && j < |st.kont[n].clauses| && ForOperation(st.kont[n].clauses[j], effect, op)
    requires forall i :: 0 <= i < j ==> !ForOperation(st.kont[n].clauses[i], effect, op)
    requires forall q :: n < q < |st.kont| ==> Passes(st.kont[q], effect, op)
    requires RoomFor(p, st.kont[n].clauses[j].fun, 2)
    ensures var s, c := Step(p, w, st, ask), st.kont[n].clauses[j];
            if c.uses == Never then
              && Entered(p, st, s, c.fun, [arg, UNIT]) && s.slices == st.slices
              && exists cs: seq<Val> :: CleanupsOf(st.kont[n..], cs) && s.kont == st.kont[..n] + (if cs == [] then [] else [KCleanups(cs)])
            else
              && Entered(p, st, s, c.fun, [arg, Resumption(|st.slices|)])
              && s.slices == st.slices + [Slice(st.kont[n..], false, false)] && s.kont == st.kont[..n] + [KAfterClause(|st.slices|)]
  {
    hide ForOperation, Passes, On, EnterCode, Defers;
    PromptIsNearest(st.kont, effect, op, n, j);
    var c, k := st.kont[n].clauses[j], st.kont;
    hide PromptFor;
    if c.uses == Never {
      var cs := Defers(k[n..]);
      DefersInOrder(k[n..]);
      EntersOn(p, st.(kont := k[..n] + if cs == [] then [] else [KCleanups(cs)]), c.fun, [arg, UNIT]);
      assert CleanupsOf(k[n..], cs);
    } else {
      EntersOn(p, st.(kont := k[..n] + [KAfterClause(|st.slices|)], slices := st.slices + [Slice(k[n..], false, false)]),
               c.fun, [arg, Resumption(|st.slices|)]);
    }
  }

  /** An operation no prompt has a clause for is a fault. */
  lemma UnhandledFaults(p: Program, w: World, st: State, f: nat, effect: Option<nat>, op: nat, arg: Val, ask: Ask)
    requires st.focus == Call(f, Operation(effect, op), arg) && f < |st.frames|
    requires forall q :: 0 <= q < |st.kont| ==> Passes(st.kont[q], effect, op)
    ensures Step(p, w, st, ask).focus.Faulted?
  {
    NoPrompt(st.kont, effect, op);
  }

  // ---- cleanups -----------------------------------------------------------

  function CleanupOf(k: K): Option<Val> {
    if k.KDefer? then Some(k.cleanup) else None
  }

  /** `cs` are the cleanups of the `defer` frames of `seg`, each once and in order. */
  ghost predicate CleanupsOf(seg: seq<K>, cs: seq<Val>) {
    InOrder(seg, CleanupOf, cs)
  }

  lemma {:induction false} DefersInOrder(seg: seq<K>)
    ensures CleanupsOf(seg, Defers(seg))
  {
    hide InOrder;
    if |seg| == 0 {
      NoneInOrder(CleanupOf);
    } else {
      var n := |seg| - 1;
      DefersInOrder(seg[..n]);
      MoreInOrder(seg[..n], seg[n], CleanupOf, Defers(seg[..n]));
      assert seg == seg[..n] + [seg[n]];
    }
  }

  /** The stack is `below`, the saved value, and a frame for each cleanup, in order. */
  predicate Queues(below: seq<K>, saved: Val, cs: seq<Val>, kont: seq<K>) {
    var n := |below|;
    && |kont| == n + 1 + |cs| && kont[..n] == below && kont[n] == KThunkRet(saved)
    && forall j :: 0 <= j < |cs| ==> kont[n + 1 + j] == KDefer(cs[j])
  }

  /** A boundary whose slice was resumed, or is owned still, is passed by; past any other
      the slice's cleanups run, if it has any, and then the value goes on. */
  lemma BoundaryLands(p: Program, w: World, st: State, v: Val, ask: Ask)
    requires st.focus == Return(v) && AtBoundary(st) && Bounding(st) < |st.slices|
    ensures var s, below, slice := Step(p, w, st, ask), st.kont[..|st.kont| - 1], st.slices[Bounding(st)];
            && s.frames == st.frames && s.slices == st.slices && s.trace == st.trace
            && if slice.used || ask.owned then s.kont == below && s.focus == Return(v)
               else
                 exists cs: seq<Val> :: CleanupsOf(slice.seg, cs) &&
                   if cs == [] then s.kont == below && s.focus == Return(v) else Queues(below, v, cs, s.kont) && s.focus == Return(UNIT)
  {
    var slice := st.slices[Bounding(st)];
    if !(slice.used || ask.owned) {
      DefersInOrder(slice.seg);
      hide Defers, CleanupsOf;
      assert CleanupsOf(slice.seg, Defers(slice.seg));
    }
  }

  /** What becomes of a value by the frame on top: it fills the one slot of a let, alone is
      what a prompt's value clause is entered on, waits below a cleanup that is entered on
      nothing, gives way to a value saved before, or waits below cleanups that were kept. */
  lemma ReturnLands(p: Program, w: World, st: State, v: Val, ask: Ask)
    requires st.focus == Return(v) && |st.kont| > 0
    ensures var s, k, below := Step(p, w, st, ask), st.kont[|st.kont| - 1], st.kont[..|st.kont| - 1];
            && (k.KRet? && k.frame < |st.frames| && k.slot < |st.frames[k.frame].locals| ==>
                  && s.kont == below && s.focus == Run(k.frame, k.body) && |s.frames| == |st.frames|
                  && (forall g :: 0 <= g < |st.frames| && g != k.frame ==> s.frames[g] == st.frames[g])
                  && var fr, fr' := st.frames[k.frame], s.frames[k.frame];
                     && |fr'.locals| == |fr.locals| && fr'.env == fr.env && fr'.locals[k.slot] == Some(v)
                     && forall i :: 0 <= i < |fr.locals| && i != k.slot ==> fr'.locals[i] == fr.locals[i])
            && (k.KPrompt? && RoomFor(p, k.els, 1) ==> s.kont == below && Entered(p, st, s, k.els, [v]))
            && (k.KDefer? && RoomFor(p, k.cleanup, 0) ==> s.kont == below + [KThunkRet(v)] && Entered(p, st, s, k.cleanup, []))
            && (k.KThunkRet? ==> s == st.(kont := below, focus := Return(k.saved)))
            && (k.KCleanups? && k.cleanups != [] ==> Queues(below, v, k.cleanups, s.kont) && s.focus == Return(UNIT) && s.frames == st.frames)
  {
    var k, below := st.kont[|st.kont| - 1], st.kont[..|st.kont| - 1];
    hide On, EnterCode;
    if k.KPrompt? && RoomFor(p, k.els, 1) {
      EntersOn(p, st.(kont := below), k.els, [v]);
    } else if k.KDefer? && RoomFor(p, k.cleanup, 0) {
      EntersOn(p, st.(kont := below + [KThunkRet(v)]), k.cleanup, []);
    }
  }

  // ---- calls --------------------------------------------------------------

  /** A closure is entered on its argument alone. */
  lemma CallLands(p: Program, w: World, st: State, f: nat, fun: Val, arg: Val, ask: Ask)
    requires st.focus == Call(f, fun, arg) && f < |st.frames| && RoomFor(p, fun, 1)
    ensures var s := Step(p, w, st, ask); Entered(p, st, s, fun, [arg]) && s.kont == st.kont && s.slices == st.slices
  {
    EntersOn(p, st, fun, [arg]);
  }

  /** A built-in asks the runtime once this is its last operand, and before that only holds
      one more; a foreign function likewise. */
  lemma LastOperandAsks(p: Program, w: World, st: State, f: nat, fun: Val, arg: Val, arity: nat, ask: Ask)
    requires st.focus == Call(f, fun, arg) && f < |st.frames|
    requires (fun.Prim? && fun.name in p.builtins && arity == p.builtins[fun.name]) || (fun.Ext? && arity == fun.arity)
    ensures var s, tick := Step(p, w, st, ask), |st.trace|;
            if |fun.args| + 1 < arity then
              s == st.(focus := Return(if fun.Prim? then Prim(fun.name, fun.args + [arg]) else Ext(fun.idx, fun.arity, fun.args + [arg])))
            else
              var answer := if fun.Prim? then w.prim(fun.name, fun.args + [arg], tick) else w.foreign(fun.idx, fun.args + [arg], tick);
              if answer.None? then s.focus.Faulted?
              else s.focus == Return(answer.value) && |s.trace| == tick + 1 && s.frames == st.frames && s.kont == st.kont
  {
  }

  // ---- resuming -----------------------------------------------------------

  /** Frame by frame the slice, its suspended activations `n` further on. */
  predicate Shifted(seg: seq<K>, out: seq<K>, n: nat) {
    && |out| == |seg|
    && forall i :: 0 <= i < |seg| ==>
         if seg[i].KRet? then out[i] == KRet(seg[i].frame + n, seg[i].slot, seg[i].body) else out[i] == seg[i]
  }

  /** A resume delivers its argument to the slice put back on the stack: its own frames,
      gone from the slice, if the call alone can resume it; otherwise a copy on private
      activations, each as the original is. */
  lemma ResumePutsBack(p: Program, w: World, st: State, f: nat, r: nat, arg: Val, ask: Ask)
    requires st.focus == Call(f, Resumption(r), arg) && f < |st.frames| && r < |st.slices| && !st.slices[r].gone
    ensures var s, n := Step(p, w, st, ask), |st.kont|;
            && s.focus == Return(arg) && |s.kont| == n + |st.slices[r].seg| && s.kont[..n] == st.kont
            && |s.slices| == |st.slices| && s.slices[r].used && (forall q :: 0 <= q < |st.slices| && q != r ==> s.slices[q] == st.slices[q])
            && if ask.unique then s.kont[n..] == st.slices[r].seg && s.slices[r].gone && s.frames == st.frames
               else
                 && Shifted(st.slices[r].seg, s.kont[n..], |st.frames|) && s.slices[r].seg == st.slices[r].seg && !s.slices[r].gone
                 && |s.frames| == 2 * |st.frames|
                 && forall g :: 0 <= g < |st.frames| ==> s.frames[g] == st.frames[g] && s.frames[|st.frames| + g] == st.frames[g]
  {
  }
}
