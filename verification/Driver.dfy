/** The machine that runs the intermediate representation: a stack of continuation
    frames, slices cut off it by an operation and spliced back by a resumption.  It runs
    let by let, or with the saturated chains of built-ins run as one call each. */
module Driver {
  import opened Common
  import opened Ir
  import opened Fusion

  datatype Clause = Clause(effect: Option<nat>, op: nat, uses: Use, fun: Val)

  datatype K =
    | KRet(frame: nat, slot: nat, body: Expr)
    | KPrompt(clauses: seq<Clause>, els: Val)
    | KDefer(cleanup: Val)
    | KThunkRet(saved: Val)
      /** The boundary of the clause that captured slice `slice`. */
    | KAfterClause(slice: nat)
    | KCleanups(cleanups: seq<Val>)

  /** A captured slice; `gone` when a resume moved its frames out. */
  datatype Slice = Slice(seg: seq<K>, used: bool, gone: bool)

  datatype Focus =
    | Run(frame: nat, code: Expr)
      /** A value about to be applied, both operands read. */
    | Call(frame: nat, fun: Val, arg: Val)
    | Return(value: Val)
    | Stopped(value: Val)
    | Faulted
      /** A slot was read that had been emptied. */
    | Blank

  /** What the runtime was asked. */
  datatype Question = Called(name: nat, args: seq<Val>) | Foreign(idx: nat, args: seq<Val>) | Forced(lazy: Val) | Accessed(op: nat, values: seq<Val>)

  datatype State = State(frames: seq<Frame>, slices: seq<Slice>, kont: seq<K>, focus: Focus, trace: seq<Question>)

  /** What the counts say: whether the slice of the boundary on top is owned by other
      than boundaries, and whether the call holds the only value that names its slice. */
  datatype Ask = Ask(owned: bool, unique: bool)

  /** What a cleanup's value is replaced with, and what a clause that cannot resume is
      given: the literal unit. */
  const UNIT := Other(0)

  // ---- stacks -------------------------------------------------------------

  /** A frame of a copied slice: activation `n + f` is the copy of `f`. */
  function Moved(k: K, n: nat): K {
    if k.KRet? then k.(frame := k.frame + n) else k
  }

  function MovedAll(seg: seq<K>, n: nat): (r: seq<K>)
    ensures |r| == |seg|
  {
    seq(|seg|, i requires 0 <= i < |seg| => Moved(seg[i], n))
  }

  /** The cleanups a slice holds, outermost first. */
  function Defers(seg: seq<K>): seq<Val> {
    if |seg| == 0 then []
    else
      var rest := Defers(seg[..|seg| - 1]);
      if seg[|seg| - 1].KDefer? then rest + [seg[|seg| - 1].cleanup] else rest
  }

  function Deferred(cleanups: seq<Val>): (r: seq<K>)
    ensures |r| == |cleanups|
  {
    seq(|cleanups|, i requires 0 <= i < |cleanups| => KDefer(cleanups[i]))
  }

  predicate Handles(c: Clause, effect: Option<nat>, op: nat) {
    c.op == op && (c.effect.None? || effect.None? || c.effect == effect)
  }

  function ClauseFor(clauses: seq<Clause>, effect: Option<nat>, op: nat): Option<Clause> {
    if |clauses| == 0 then None
    else if Handles(clauses[0], effect, op) then Some(clauses[0])
    else ClauseFor(clauses[1..], effect, op)
  }

  /** The nearest prompt with a clause for the operation. */
  function PromptFor(kont: seq<K>, effect: Option<nat>, op: nat): (r: Option<(nat, Clause)>)
    ensures r.Some? ==> r.value.0 < |kont|
    decreases |kont|
  {
    if |kont| == 0 then None
    else
      var k, n := kont[|kont| - 1], |kont| - 1;
      if k.KPrompt? && ClauseFor(k.clauses, effect, op).Some? then Some((n, ClauseFor(k.clauses, effect, op).value))
      else PromptFor(kont[..n], effect, op)
  }

  // ---- steps --------------------------------------------------------------

  /** The activation a closure is entered in. */
  function Activation(p: Program, f: Val, args: seq<Val>): Option<Frame> {
    if f.Clo? && f.code < |p.codes| && |args| <= p.codes[f.code].nlocals then
      Some(Frame(seq(p.codes[f.code].nlocals, i requires 0 <= i => if i < |args| then Some(args[i]) else None),
                 seq(|f.env|, i requires 0 <= i < |f.env| => Some(f.env[i]))))
    else None
  }

  function EnterCode(p: Program, st: State, f: Val, args: seq<Val>): State {
    match Activation(p, f, args)
    case Some(fr) => st.(frames := st.frames + [fr], focus := Run(|st.frames|, p.codes[f.code].body))
    case None => st.(focus := Faulted)
  }

  /** Run abandoned cleanups, then deliver `v`: at once, if there are none. */
  function Unwind(st: State, cleanups: seq<Val>, v: Val): State {
    if cleanups == [] then st.(focus := Return(v))
    else st.(kont := st.kont + [KThunkRet(v)] + Deferred(cleanups), focus := Return(UNIT))
  }

  /** Cut the slice at the handler's prompt and enter the clause below it; of a clause
      that cannot resume, only the slice's cleanups are kept. */
  function Perform(p: Program, st: State, effect: Option<nat>, op: nat, arg: Val): State {
    match PromptFor(st.kont, effect, op)
    case None => st.(focus := Faulted)
    case Some((n, clause)) =>
      var seg, below := st.kont[n..], st.kont[..n];
      if clause.uses == Never then
        var kept := if Defers(seg) == [] then [] else [KCleanups(Defers(seg))];
        EnterCode(p, st.(kont := below + kept), clause.fun, [arg, UNIT])
      else
        EnterCode(p, st.(kont := below + [KAfterClause(|st.slices|)], slices := st.slices + [Slice(seg, false, false)]),
                  clause.fun, [arg, Resumption(|st.slices|)])
  }

  /** Splice a slice back on and deliver `arg` to it: its own frames when the call holds
      it alone, else a private copy. */
  function Resume(st: State, r: nat, arg: Val, unique: bool): State {
    if r >= |st.slices| || st.slices[r].gone then st.(focus := Faulted)
    else
      var seg, n := st.slices[r].seg, |st.frames|;
      if unique then
        st.(slices := st.slices[r := Slice([], true, true)], kont := st.kont + seg, focus := Return(arg))
      else
        st.(frames := st.frames + st.frames, slices := st.slices[r := st.slices[r].(used := true)],
            kont := st.kont + MovedAll(seg, n), focus := Return(arg))
  }

  /** Go on as a computation in activation `f` ended, having asked `q` if it asked. */
  function After(st: State, f: nat, r: Outcome, q: Question): State
    requires f < |st.frames|
  {
    match r
    case Done(v, fr, t) =>
      st.(frames := st.frames[f := fr], focus := Return(v), trace := if t == |st.trace| then st.trace else st.trace + [q])
    case Stuck => st.(focus := Blank)
    case _ => st.(focus := Faulted)
  }

  function Applied(p: Program, w: World, st: State, f: nat, fun: Val, arg: Val, ask: Ask): State
    requires f < |st.frames|
  {
    match fun
    case Clo(_, _) => EnterCode(p, st, fun, [arg])
    case Prim(name, args) => After(st, f, Apply(p, w, fun, arg, st.frames[f], |st.trace|, 0), Called(name, args + [arg]))
    case Ext(idx, _, args) => After(st, f, Apply(p, w, fun, arg, st.frames[f], |st.trace|, 0), Question.Foreign(idx, args + [arg]))
    case Operation(effect, op) => Perform(p, st, effect, op, arg)
    case Resumption(r) => Resume(st, r, arg, ask.unique)
    case _ => st.(focus := Faulted)
  }

  /** The state once an activation's operands are read: `None` when one was not there. */
  function Read(st: State, f: nat, g: GotAll): State
    requires f < |st.frames|
  {
    match g
    case Gots(_, fr) => st.(frames := st.frames[f := fr])
    case NoneThere => st.(focus := Blank)
    case NoSuch => st.(focus := Faulted)
  }

  function Clauses(clauses: seq<OnOp>, funs: seq<Val>): seq<Clause>
    requires |funs| >= |clauses|
  {
    seq(|clauses|, i requires 0 <= i < |clauses| => Clause(clauses[i].effect, clauses[i].op, clauses[i].uses, funs[i]))
  }

  lemma {:induction false} GotAsMany(p: Program, w: World, atoms: seq<Atom>, fr: Frame, tick: nat)
    ensures ReadAtoms(p, w, atoms, fr, tick).Gots? ==> |ReadAtoms(p, w, atoms, fr, tick).values| == |atoms|
    decreases |atoms|
  {
    if |atoms| > 0 {
      var r := ReadAtom(p, w, atoms[0], fr, tick);
      if r.Got? {
        GotAsMany(p, w, atoms[1..], r.frame, tick);
      }
    }
  }

  function RunCase(p: Program, w: World, st: State, f: nat, scrut: Atom, alts: seq<Alt>, default: Expr): State
    requires f < |st.frames|
  {
    match ReadAtom(p, w, scrut, st.frames[f], |st.trace|)
    case Empty => st.(focus := Blank)
    case Missing => st.(focus := Faulted)
    case Got(s, fr) =>
      var forced := w.force(s, |st.trace|);
      if forced.None? then st.(focus := Faulted)
      else
        var k, looked := Select(alts, forced.value), st.(trace := st.trace + [Forced(s)]);
        if k == |alts| then looked.(frames := st.frames[f := fr], focus := Run(f, default))
        else looked.(frames := st.frames[f := Chosen(alts[k], forced.value, fr)], focus := Run(f, alts[k].body))
  }

  function RunHandle(p: Program, w: World, st: State, f: nat, body: Expr, clauses: seq<OnOp>, els: Atom): State
    requires f < |st.frames|
  {
    var g := ReadAtoms(p, w, Funs(clauses) + [els], st.frames[f], |st.trace|);
    GotAsMany(p, w, Funs(clauses) + [els], st.frames[f], |st.trace|);
    if g.Gots? then
      Read(st, f, g).(kont := st.kont + [KPrompt(Clauses(clauses, g.values), g.values[|clauses|])], focus := Run(f, body))
    else Read(st, f, g)
  }

  function RunCode(p: Program, w: World, st: State, f: nat, e: Expr): State {
    if f >= |st.frames| then st.(focus := Faulted)
    else
      var fr := st.frames[f];
      match e
      case Let(slot, rhs, body) => st.(kont := st.kont + [KRet(f, slot, body)], focus := Run(f, rhs))
      case App(fun, arg) =>
        (match ReadAtom(p, w, fun, fr, |st.trace|)
         case Empty => st.(focus := Blank)
         case Missing => st.(focus := Faulted)
         case Got(callee, fr1) =>
           match ReadAtom(p, w, arg, fr1, |st.trace|)
           case Empty => st.(focus := Blank)
           case Missing => st.(focus := Faulted)
           case Got(v, fr2) => st.(frames := st.frames[f := fr2], focus := Call(f, callee, v)))
      case Case(scrut, alts, default) => RunCase(p, w, st, f, scrut, alts, default)
      case Handle(body, clauses, els) => RunHandle(p, w, st, f, body, clauses, els)
      case Defer(cleanup, body) =>
        (match ReadAtom(p, w, cleanup, fr, |st.trace|)
         case Empty => st.(focus := Blank)
         case Missing => st.(focus := Faulted)
         case Got(v, fr1) => st.(frames := st.frames[f := fr1], kont := st.kont + [KDefer(v)], focus := Run(f, body)))
      case Drop(slots, body) => st.(frames := st.frames[f := fr.(locals := Clear(fr.locals, slots))], focus := Run(f, body))
      case Access(op, record, fields) =>
        var g := ReadAtoms(p, w, [record] + fields, fr, |st.trace|);
        After(st, f, Eval(p, w, e, fr, |st.trace|, 0), Accessed(op, if g.Gots? then g.values else []))
      case _ => After(st, f, Eval(p, w, e, fr, |st.trace|, 0), Forced(UNIT))
  }

  /** Hand a value to the top continuation frame. */
  function Deliver(p: Program, st: State, v: Val, ask: Ask): State {
    if |st.kont| == 0 then st.(focus := Stopped(v))
    else
      var k, popped := st.kont[|st.kont| - 1], st.(kont := st.kont[..|st.kont| - 1]);
      match k
      case KRet(f, slot, body) =>
        if f >= |st.frames| || slot >= |st.frames[f].locals| then st.(focus := Faulted)
        else popped.(frames := st.frames[f := Filled(st.frames[f], slot, v)], focus := Run(f, body))
      case KPrompt(_, els) => EnterCode(p, popped, els, [v])
      case KDefer(cleanup) => EnterCode(p, popped.(kont := popped.kont + [KThunkRet(v)]), cleanup, [])
      case KThunkRet(saved) => popped.(focus := Return(saved))
      case KAfterClause(r) =>
        if r >= |st.slices| then st.(focus := Faulted)
        else if st.slices[r].used || ask.owned then popped
        else Unwind(popped, Defers(st.slices[r].seg), v)
      case KCleanups(cleanups) => Unwind(popped, cleanups, v)
  }

  function Filled(fr: Frame, slot: nat, v: Val): Frame
    requires slot < |fr.locals|
  {
    fr.(locals := fr.locals[slot := Some(v)])
  }

  /** One step, let by let. */
  function Step(p: Program, w: World, st: State, ask: Ask): State {
    match st.focus
    case Run(f, e) => RunCode(p, w, st, f, e)
    case Call(f, fun, arg) => if f < |st.frames| then Applied(p, w, st, f, fun, arg, ask) else st.(focus := Faulted)
    case Return(v) => Deliver(p, st, v, ask)
    case _ => st
  }

  /** The chain about to run as one call. */
  function ChainAt(p: Program, deep: set<nat>, st: State): Option<Chain> {
    if st.focus.Run? && st.focus.code.Let? && st.focus.frame < |st.frames| then
      FusedChain(p, deep, st.focus.code.slot, st.focus.code.rhs, st.focus.code.body)
    else None
  }

  /** Run a chain and bind its result, or return it. */
  function RunFused(p: Program, w: World, st: State, f: nat, c: Chain): State
    requires f < |st.frames|
  {
    match RunChain(p, w, c, st.frames[f], |st.trace|)
    case Done(v, fr, _) =>
      var asked := st.trace + [Called(c.name, ReadAtoms(p, w, c.args, st.frames[f], |st.trace|).values)];
      if c.rest.None? then st.(frames := st.frames[f := fr], focus := Return(v), trace := asked)
      else if c.rest.value.0 >= |fr.locals| then st.(focus := Faulted)
      else st.(frames := st.frames[f := Filled(fr, c.rest.value.0, v)], focus := Run(f, c.rest.value.1), trace := asked)
    case Stuck => st.(focus := Blank)
    case _ => st.(focus := Faulted)
  }

  /** One step, with chains fused wherever they can be. */
  function FStep(p: Program, w: World, deep: set<nat>, st: State, ask: Ask): State {
    match ChainAt(p, deep, st)
    case Some(c) => RunFused(p, w, st, st.focus.frame, c)
    case None => Step(p, w, st, ask)
  }

  // ---- counts -------------------------------------------------------------

  /** The slices a value names. */
  function Names(v: Val): set<nat>
    decreases v
  {
    match v
    case Resumption(r) => {r}
    case Clo(_, env) => NamesAll(env)
    case Data(_, fields) => NamesAll(fields)
    case Prim(_, args) => NamesAll(args)
    case Ext(_, _, args) => NamesAll(args)
    case _ => {}
  }

  function NamesAll(vs: seq<Val>): set<nat>
    decreases vs
  {
    if |vs| == 0 then {} else Names(vs[0]) + NamesAll(vs[1..])
  }

  function ClauseNames(clauses: seq<Clause>): set<nat> {
    if |clauses| == 0 then {} else Names(clauses[0].fun) + ClauseNames(clauses[1..])
  }

  /** The slices the values in a continuation frame name; a boundary holds no value. */
  function KNames(k: K): set<nat> {
    match k
    case KPrompt(clauses, els) => ClauseNames(clauses) + Names(els)
    case KDefer(cleanup) => Names(cleanup)
    case KThunkRet(saved) => Names(saved)
    case KCleanups(cleanups) => NamesAll(cleanups)
    case _ => {}
  }

  /** The slices the values of an activation name. */
  ghost predicate NamedInRow(r: nat, row: seq<Option<Val>>) {
    exists i :: 0 <= i < |row| && row[i].Some? && r in Names(row[i].value)
  }

  ghost predicate NamedInFrame(r: nat, fr: Frame) {
    NamedInRow(r, fr.locals) || NamedInRow(r, fr.env)
  }

  ghost predicate NamedIn(r: nat, ks: seq<K>) {
    exists i :: 0 <= i < |ks| && r in KNames(ks[i])
  }

  /** What is in hand at a step: the value in flight, or the argument of a call. */
  function InHand(focus: Focus): set<nat> {
    match focus
    case Call(_, _, arg) => Names(arg)
    case Return(v) => Names(v)
    case _ => {}
  }

  predicate RunsIn(focus: Focus, f: nat) {
    (focus.Run? || focus.Call?) && focus.frame == f
  }

  /** Activations and slices that are still there. */
  datatype Alive = Alive(frames: set<nat>, slices: set<nat>)

  ghost predicate Keeps(a: Alive, ks: seq<K>) {
    forall i :: 0 <= i < |ks| ==>
      && (ks[i].KRet? ==> ks[i].frame in a.frames) && (ks[i].KAfterClause? ==> ks[i].slice in a.slices)
      && KNames(ks[i]) <= a.slices
  }

  ghost predicate KeepsFrame(a: Alive, fr: Frame) {
    forall r :: NamedInFrame(r, fr) ==> r in a.slices
  }

  /** Everything the run or what is alive refers to is alive. */
  ghost predicate Closed(st: State, a: Alive) {
    && (forall f :: RunsIn(st.focus, f) ==> f in a.frames) && InHand(st.focus) <= a.slices && Keeps(a, st.kont)
    && (forall f :: f in a.frames && f < |st.frames| ==> KeepsFrame(a, st.frames[f]))
    && (forall q :: q in a.slices && q < |st.slices| ==> Keeps(a, st.slices[q].seg))
  }

  /** A value that is alive names the slice. */
  ghost predicate Named(st: State, a: Alive, r: nat) {
    || r in InHand(st.focus) || NamedIn(r, st.kont)
    || (exists f :: f in a.frames && f < |st.frames| && NamedInFrame(r, st.frames[f]))
    || (exists q :: q in a.slices && q < |st.slices| && NamedIn(r, st.slices[q].seg))
  }

  /** Owned by other than boundaries: whatever else has been released, a value that is
      alive names the slice.  (The callee of a call does not count: it is in hand.) */
  ghost predicate Owned(st: State, r: nat) {
    forall a :: Closed(st, a) ==> Named(st, a, r)
  }

  predicate AtBoundary(st: State) {
    st.focus.Return? && |st.kont| > 0 && st.kont[|st.kont| - 1].KAfterClause?
  }

  function Bounding(st: State): nat
    requires AtBoundary(st)
  {
    st.kont[|st.kont| - 1].slice
  }

  predicate AtResume(st: State) {
    st.focus.Call? && st.focus.fun.Resumption?
  }

  /** What exact counts answer. */
  ghost function Counts(st: State): Ask {
    Ask(AtBoundary(st) && Owned(st, Bounding(st)), AtResume(st) && !Owned(st, st.focus.fun.id))
  }

  /** The state after `n` steps, by its own counts. */
  ghost function RunBy(p: Program, w: World, st: State, n: nat): State
    decreases n
  {
    if n == 0 then st else RunBy(p, w, Step(p, w, st, Counts(st)), n - 1)
  }

  ghost function FRunBy(p: Program, w: World, deep: set<nat>, st: State, n: nat): State
    decreases n
  {
    if n == 0 then st else FRunBy(p, w, deep, FStep(p, w, deep, st, Counts(st)), n - 1)
  }
}
