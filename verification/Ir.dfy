/** The intermediate representation and what it means: an evaluator that runs one
    activation at a time, up to the point where it would touch the continuation. */
module Ir {
  import opened Common

  datatype Atom =
    | Local(slot: nat)
      /** The last use of a slot: reading it leaves the slot empty. */
    | Move(slot: nat)
    | Env(field: nat)
    | MoveEnv(field: nat)
    | Glob(name: nat)
    | LitI(value: int)
    | Lit(literal: nat)
    | Clos(code: nat, captures: seq<Atom>)
      /** A foreign function of the table, by its arity. */
    | Foreign(idx: nat, arity: nat)

  datatype AltKind = OnInt(value: int) | OnLit(literal: nat) | OnCon(tag: nat)

  datatype Unpack = Borrow | Consume(slot: nat, token: Option<nat>)

  datatype Alt = Alt(kind: AltKind, base: nat, binders: seq<bool>, unpack: Unpack, body: Expr)

  /** Whether a clause may use the continuation it is given. */
  datatype Use = Never | Captured

  /** A handler's clause: the operation it is for (of any effect, if none is named). */
  datatype OnOp = OnOp(effect: Option<nat>, op: nat, uses: Use, fun: Atom)

  function Funs(clauses: seq<OnOp>): (r: seq<Atom>)
    ensures |r| == |clauses|
  {
    seq(|clauses|, i requires 0 <= i < |clauses| => clauses[i].fun)
  }

  datatype Expr =
    | Ret(atom: Atom)
    | Let(slot: nat, rhs: Expr, body: Expr)
    | App(fun: Atom, arg: Atom)
    | Case(scrut: Atom, alts: seq<Alt>, default: Expr)
      /** A struct, a variant or a tuple, from its fields. */
    | Build(tag: nat, fields: seq<Atom>)
      /** A record update, or a field access: what it yields is the runtime's. */
    | Access(op: nat, record: Atom, fields: seq<Atom>)
    | Handle(body: Expr, clauses: seq<OnOp>, els: Atom)
    | Defer(cleanup: Atom, body: Expr)
    | Drop(slots: seq<nat>, body: Expr)
    | Fail

  datatype Code = Code(nparams: nat, nlocals: nat, body: Expr)

  /** `globals` names the nullary code that computes each global, `builtins` the arity
      of each built-in, and `operations` the effect operations. */
  datatype Program = Program(codes: seq<Code>, globals: map<nat, nat>, builtins: map<nat, nat>, operations: map<nat, (Option<nat>, nat)>)

  datatype Val =
    | Int(value: int)
    | Other(literal: nat)
    | Data(tag: nat, fields: seq<Val>)
    | Clo(code: nat, env: seq<Val>)
    | Prim(name: nat, args: seq<Val>)
    | Ext(idx: nat, arity: nat, args: seq<Val>)
    | Operation(effect: Option<nat>, op: nat)
    | Resumption(id: nat)

  /** One activation: its slots, empty or holding a value, and its captured record. */
  datatype Frame = Frame(locals: seq<Option<Val>>, env: seq<Option<Val>>)

  /** What the runtime answers, by how many times it was asked before: a saturated
      built-in or foreign function, a lazy slot forced, a global that is computed, a
      record operation.  `None` is a fault. */
  datatype World = World(
    prim: (nat, seq<Val>, nat) -> Option<Val>,
    foreign: (nat, seq<Val>, nat) -> Option<Val>,
    force: (Val, nat) -> Option<Val>,
    caf: (nat, nat) -> Option<Val>,
    access: (nat, Val, seq<Val>, nat) -> Option<Val>)

  // ---- globals ------------------------------------------------------------

  /** The closure a code returns, under the drop of its unread parameter. */
  function ReturnedClosure(e: Expr): Option<(nat, seq<Atom>)> {
    match e
    case Ret(Clos(code, captures)) => Some((code, captures))
    case Drop(slots, body) => if slots == [0] then ReturnedClosure(body) else None
    case _ => None
  }

  function Constant(p: Program, caf: nat): Option<Val> {
    if caf >= |p.codes| then None
    else
      match ReturnedClosure(p.codes[caf].body)
      case Some((code, captures)) => if captures == [] then Some(Clo(code, [])) else None
      case None =>
        match p.codes[caf].body
        case Ret(Foreign(idx, arity)) => Some(Ext(idx, arity, []))
        case _ => None
  }

  function GlobalValue(p: Program, w: World, name: nat, tick: nat): Option<Val> {
    if name in p.globals then
      var known := Constant(p, p.globals[name]);
      if known.Some? then known else w.caf(name, tick)
    else if name in p.builtins then Some(Prim(name, []))
    else if name in p.operations then Some(Operation(p.operations[name].0, p.operations[name].1))
    else None
  }

  // ---- reading atoms ------------------------------------------------------

  /** A read value and the frame after it; `Empty` when the slot was emptied before. */
  datatype Got = Got(value: Val, frame: Frame) | Empty | Missing

  function ReadAtom(p: Program, w: World, a: Atom, fr: Frame, tick: nat): Got
    decreases a
  {
    match a
    case Local(i) =>
      if i >= |fr.locals| then Missing else if fr.locals[i].None? then Empty else Got(fr.locals[i].value, fr)
    case Move(i) =>
      if i >= |fr.locals| then Missing else if fr.locals[i].None? then Empty
      else Got(fr.locals[i].value, fr.(locals := fr.locals[i := None]))
    case Env(i) =>
      if i >= |fr.env| then Missing else if fr.env[i].None? then Empty else Got(fr.env[i].value, fr)
    case MoveEnv(i) =>
      if i >= |fr.env| then Missing else if fr.env[i].None? then Empty
      else Got(fr.env[i].value, fr.(env := fr.env[i := None]))
    case Glob(name) =>
      var v := GlobalValue(p, w, name, tick);
      if v.Some? then Got(v.value, fr) else Missing
    case LitI(n) => Got(Int(n), fr)
    case Lit(k) => Got(Other(k), fr)
    case Foreign(idx, arity) => Got(Ext(idx, arity, []), fr)
    case Clos(code, captures) =>
      match ReadAtoms(p, w, captures, fr, tick)
      case Gots(vs, fr') => Got(Clo(code, vs), fr')
      case NoneThere => Empty
      case NoSuch => Missing
  }

  datatype GotAll = Gots(values: seq<Val>, frame: Frame) | NoneThere | NoSuch

  function ReadAtoms(p: Program, w: World, atoms: seq<Atom>, fr: Frame, tick: nat): GotAll
    decreases atoms
  {
    if |atoms| == 0 then Gots([], fr)
    else
      match ReadAtom(p, w, atoms[0], fr, tick)
      case Empty => NoneThere
      case Missing => NoSuch
      case Got(v, fr1) =>
        match ReadAtoms(p, w, atoms[1..], fr1, tick)
        case Gots(vs, fr2) => Gots([v] + vs, fr2)
        case other => other
  }

  // ---- evaluation ---------------------------------------------------------

  /** How a computation ends: with a value, by a fault, by reading an emptied slot, by
      running out of the steps allowed, or where the machine would install a handler or
      a cleanup, or apply an operation or a resumption. */
  datatype Outcome = Done(value: Val, frame: Frame, tick: nat) | Faulty | Stuck | OutOfFuel | Suspends

  function Clear(locals: seq<Option<Val>>, slots: seq<nat>): (r: seq<Option<Val>>)
    ensures |r| == |locals|
    decreases |slots|
  {
    if |slots| == 0 then locals
    else Clear(if slots[0] < |locals| then locals[slots[0] := None] else locals, slots[1..])
  }

  function Bind(locals: seq<Option<Val>>, base: nat, binders: seq<bool>, fields: seq<Val>): (r: seq<Option<Val>>)
    ensures |r| == |locals|
    decreases |binders|
  {
    if |binders| == 0 || |fields| == 0 then locals
    else
      Bind(if binders[0] && base < |locals| then locals[base := Some(fields[0])] else locals, base + 1, binders[1..], fields[1..])
  }

  function Empties(locals: seq<Option<Val>>, unpack: Unpack): (r: seq<Option<Val>>)
    ensures |r| == |locals|
  {
    match unpack
    case Borrow => locals
    case Consume(slot, token) => Clear(Clear(locals, [slot]), if token.Some? then [token.value] else [])
  }

  predicate Matches(kind: AltKind, v: Val) {
    match kind
    case OnInt(n) => v == Int(n)
    case OnLit(k) => v == Other(k)
    case OnCon(tag) => v.Data? && v.tag == tag
  }

  /** The alternative a value selects, or the number of them for the default. */
  function Select(alts: seq<Alt>, v: Val): (k: nat)
    ensures k <= |alts|
    ensures k < |alts| ==> Matches(alts[k].kind, v)
  {
    if |alts| == 0 then 0 else if Matches(alts[0].kind, v) then 0 else 1 + Select(alts[1..], v)
  }

  /** The activation an alternative runs in, once it has unpacked its scrutinee. */
  function Chosen(alt: Alt, v: Val, fr: Frame): Frame
    requires Matches(alt.kind, v)
  {
    if alt.kind.OnCon? then fr.(locals := Bind(Empties(fr.locals, alt.unpack), alt.base, alt.binders, v.fields)) else fr
  }

  function Enter(p: Program, code: nat, env: seq<Val>, arg: Val): Frame
    requires code < |p.codes| && p.codes[code].nlocals > 0
  {
    Frame([Some(arg)] + seq(p.codes[code].nlocals - 1, i => None), seq(|env|, i requires 0 <= i < |env| => Some(env[i])))
  }

  function FromGot(g: Got, tick: nat): Outcome {
    match g
    case Got(v, fr) => Done(v, fr, tick)
    case Empty => Stuck
    case Missing => Faulty
  }

  function Answer(v: Option<Val>, fr: Frame, tick: nat): Outcome {
    if v.Some? then Done(v.value, fr, tick + 1) else Faulty
  }

  /** Apply a value to one argument; `fr` is the caller's activation. */
  function Apply(p: Program, w: World, f: Val, arg: Val, fr: Frame, tick: nat, fuel: nat): Outcome
    decreases fuel, 1, Fail
  {
    match f
    case Clo(code, env) =>
      if code >= |p.codes| || p.codes[code].nlocals == 0 then Faulty
      else if fuel == 0 then OutOfFuel
      else
        (match Eval(p, w, p.codes[code].body, Enter(p, code, env, arg), tick, fuel - 1)
         case Done(v, _, t) => Done(v, fr, t)
         case other => other)
    case Prim(name, args) =>
      if name !in p.builtins then Faulty
      else if |args| + 1 >= p.builtins[name] then Answer(w.prim(name, args + [arg], tick), fr, tick)
      else Done(Prim(name, args + [arg]), fr, tick)
    case Ext(idx, arity, args) =>
      if |args| + 1 >= arity then Answer(w.foreign(idx, args + [arg], tick), fr, tick)
      else Done(Ext(idx, arity, args + [arg]), fr, tick)
    case Operation(_, _) => Suspends
    case Resumption(_) => Suspends
    case _ => Faulty
  }

  function AppStep(p: Program, w: World, fun: Atom, arg: Atom, fr: Frame, tick: nat, fuel: nat): Outcome
    decreases fuel, 2, Fail
  {
    match ReadAtom(p, w, fun, fr, tick)
    case Empty => Stuck
    case Missing => Faulty
    case Got(f, fr1) =>
      match ReadAtom(p, w, arg, fr1, tick)
      case Empty => Stuck
      case Missing => Faulty
      case Got(v, fr2) => Apply(p, w, f, v, fr2, tick, fuel)
  }

  function Eval(p: Program, w: World, e: Expr, fr: Frame, tick: nat, fuel: nat): Outcome
    decreases fuel, 3, e
  {
    match e
    case Ret(a) => FromGot(ReadAtom(p, w, a, fr, tick), tick)
    case Let(slot, rhs, body) =>
      (match Eval(p, w, rhs, fr, tick, fuel)
       case Done(v, fr1, t) =>
         if slot >= |fr1.locals| then Faulty
         else Eval(p, w, body, fr1.(locals := fr1.locals[slot := Some(v)]), t, fuel)
       case other => other)
    case App(fun, arg) => AppStep(p, w, fun, arg, fr, tick, fuel)
    case Case(scrut, alts, default) =>
      (match ReadAtom(p, w, scrut, fr, tick)
       case Empty => Stuck
       case Missing => Faulty
       case Got(s, fr1) =>
         var forced := w.force(s, tick);
         if forced.None? then Faulty
         else
           var k := Select(alts, forced.value);
           if k == |alts| then Eval(p, w, default, fr1, tick + 1, fuel)
           else Eval(p, w, alts[k].body, Chosen(alts[k], forced.value, fr1), tick + 1, fuel))
    case Build(tag, fields) =>
      (match ReadAtoms(p, w, fields, fr, tick)
       case Gots(vs, fr1) => Done(Data(tag, vs), fr1, tick)
       case NoneThere => Stuck
       case NoSuch => Faulty)
    case Access(op, record, fields) =>
      (match ReadAtoms(p, w, [record] + fields, fr, tick)
       case Gots(vs, fr1) => Answer(w.access(op, vs[0], vs[1..], tick), fr1, tick)
       case NoneThere => Stuck
       case NoSuch => Faulty)
    case Drop(slots, body) => Eval(p, w, body, fr.(locals := Clear(fr.locals, slots)), tick, fuel)
    case Fail => Faulty
    case Handle(_, _, _) => Suspends
    case Defer(_, _) => Suspends
  }

  // ---- chains of applications ---------------------------------------------

  /** A built-in's operands along a chain of lets, the slots the partial applications
      would have used, and the drops met on the way. */
  datatype Chain = Chain(name: nat, args: seq<Atom>, slots: seq<nat>, drops: seq<nat>, rest: Option<(nat, Expr)>)

  function ChainFrom(name: nat, arity: nat, args: seq<Atom>, slots: seq<nat>, drops: seq<nat>, cur: Expr): (r: Option<Chain>)
    requires |slots| > 0
    ensures r.Some? ==> |args| <= arity && (r.value.rest.Some? ==> r.value.rest.value.1 == cur || r.value.rest.value.1 < cur)
    decreases cur
  {
    var partial := slots[|slots| - 1];
    if |args| == arity then Some(Chain(name, args, slots, drops, Some((partial, cur))))
    else
      match cur
      case Drop(more, body) => ChainFrom(name, arity, args, slots, drops + more, body)
      case App(fun, arg) =>
        if fun == Move(partial) && |args| + 1 == arity then Some(Chain(name, args + [arg], slots + [partial], drops, None)) else None
      case Let(next, rhs, body) =>
        if rhs.App? && rhs.fun == Move(partial) then ChainFrom(name, arity, args + [rhs.arg], slots + [next], drops, body) else None
      case _ => None
  }
}
