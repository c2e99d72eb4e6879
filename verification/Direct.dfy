/** Direct functions: the largest set of known functions that never touch the
    continuation, assuming the same of each other, and why the assumption is sound. */
module Direct {
  import opened Common
  import opened Ir
  import opened Currying

  type Known = map<nat, KnownFn>

  /** What a global calls once it has all its operands. */
  datatype Callee = OfPrim | OfForeign | OfKnown(caf: nat)

  /** A callee applied to all its operands; `rest` is the slot the result goes to and
      what runs then, or nothing in tail position. */
  datatype Call = Call(name: nat, callee: Callee, args: seq<Atom>, drops: seq<nat>, rest: Option<(nat, Expr)>)

  function CalleeOf(p: Program, known: Known, name: nat): Option<(Callee, nat)> {
    if name in p.globals then
      var caf := p.globals[name];
      if caf in known then Some((OfKnown(caf), Arity(known[caf])))
      else if caf < |p.codes| && p.codes[caf].nparams == 0 && p.codes[caf].body.Ret? && p.codes[caf].body.atom.Foreign? then
        Some((OfForeign, if p.codes[caf].body.atom.arity > 1 then p.codes[caf].body.atom.arity else 1))
      else None
    else if name in p.builtins then Some((OfPrim, p.builtins[name]))
    else None
  }

  /** A one-argument callee applied. */
  function LoneCall(p: Program, known: Known, fun: Atom, arg: Atom): Option<Call> {
    if !fun.Glob? then None
    else
      match CalleeOf(p, known, fun.name)
      case Some((callee, arity)) => if arity == 1 then Some(Call(fun.name, callee, [arg], [], None)) else None
      case None => None
  }

  /** A chain as the call it makes. */
  function Called(callee: Callee, chain: Option<Chain>): (r: Option<Call>) {
    match chain
    case Some(c) => Some(Call(c.name, callee, c.args, c.drops, c.rest))
    case None => None
  }

  function ChainSpec(p: Program, known: Known, slot: nat, rhs: Expr, body: Expr): (r: Option<Call>)
    ensures r.Some? && r.value.rest.Some? ==> r.value.rest.value.1 == body || r.value.rest.value.1 < body
  {
    if !rhs.App? || !rhs.fun.Glob? then None
    else
      match CalleeOf(p, known, rhs.fun.name)
      case Some((callee, arity)) => Called(callee, ChainFrom(rhs.fun.name, arity, [rhs.arg], [slot], [], body))
      case None => None
  }

  /** A built-in or known function applied to all its operands, as a chain of lets each
      applying the previous partial application to one more. */
  method CallChain(p: Program, known: Known, slot: nat, rhs: Expr, body: Expr) returns (r: Option<Call>)
    ensures r == ChainSpec(p, known, slot, rhs, body)
  {
    if !rhs.App? || !rhs.fun.Glob? {
      return None;
    }
    var found := CalleeOf(p, known, rhs.fun.name);
    if found.None? {
      return None;
    }
    var name := rhs.fun.name;
    var (callee, arity) := found.value;
    var args, partial, cur := [rhs.arg], slot, body;
    var drops: seq<nat> := [];
    ghost var used := [slot];
    while true
      invariant |used| > 0 && partial == used[|used| - 1]
      invariant ChainSpec(p, known, slot, rhs, body) == Called(callee, ChainFrom(name, arity, args, used, drops, cur))
      decreases cur
    {
      if |args| == arity {
        return Some(Call(name, callee, args, drops, Some((partial, cur))));
      }
      match cur {
        case Drop(slots, after) =>
          drops, cur := drops + slots, after;
        case App(fun, arg) =>
          if fun == Move(partial) && |args| + 1 == arity {
            return Some(Call(name, callee, args + [arg], drops, None));
          }
          return None;
        case Let(next, value, after) =>
          if !(value.App? && value.fun == Move(partial)) {
            return None;
          }
          args, partial, cur := args + [value.arg], next, after;
          used := used + [next];
        case _ => return None;
      }
    }
  }

  predicate CalleeOk(callee: Callee, safe: set<nat>) {
    callee.OfKnown? ==> callee.caf in safe
  }

  /** Applying `fun` to one argument only builds a value. */
  predicate PartialCallee(p: Program, known: Known, fun: Atom) {
    fun.Glob? &&
    if fun.name in p.globals then p.globals[fun.name] in known && Arity(known[p.globals[fun.name]]) > 1
    else fun.name in p.builtins && p.builtins[fun.name] > 1
  }

  /** Whether `e` runs without touching the continuation, given the direct functions
      `safe`. */
  predicate NeverSuspends(p: Program, known: Known, safe: set<nat>, e: Expr)
    decreases e
  {
    match e
    case Let(slot, rhs, body) =>
      (match ChainSpec(p, known, slot, rhs, body)
       case Some(call) => CalleeOk(call.callee, safe) && (call.rest.Some? ==> NeverSuspends(p, known, safe, call.rest.value.1))
       case None => NeverSuspends(p, known, safe, rhs) && NeverSuspends(p, known, safe, body))
    case App(fun, arg) =>
      (match LoneCall(p, known, fun, arg)
       case Some(call) => CalleeOk(call.callee, safe)
       case None => PartialCallee(p, known, fun))
    case Case(_, alts, default) =>
      (forall i :: 0 <= i < |alts| ==> NeverSuspends(p, known, safe, alts[i].body)) && NeverSuspends(p, known, safe, default)
    case Drop(_, body) => NeverSuspends(p, known, safe, body)
    case Handle(_, _, _) => false
    case Defer(_, _) => false
    case _ => true
  }

  // ---- the largest consistent set -----------------------------------------

  function InnerBody(p: Program, f: KnownFn): Expr {
    if |f.codes| > 0 && f.codes[|f.codes| - 1] < |p.codes| then p.codes[f.codes[|f.codes| - 1]].body else Fail
  }

  /** Every member never suspends, given the members. */
  ghost predicate Consistent(p: Program, known: Known, safe: set<nat>) {
    safe <= known.Keys && forall caf :: caf in safe ==> NeverSuspends(p, known, safe, InnerBody(p, known[caf]))
  }

  /** Assuming more functions direct never makes a body suspend. */
  lemma {:induction false} MoreIsSafe(p: Program, known: Known, safe: set<nat>, more: set<nat>, e: Expr)
    requires safe <= more && NeverSuspends(p, known, safe, e)
    ensures NeverSuspends(p, known, more, e)
    decreases e
  {
    match e
    case Let(slot, rhs, body) =>
      var call := ChainSpec(p, known, slot, rhs, body);
      if call.None? {
        MoreIsSafe(p, known, safe, more, rhs);
        MoreIsSafe(p, known, safe, more, body);
      } else if call.value.rest.Some? {
        MoreIsSafe(p, known, safe, more, call.value.rest.value.1);
      }
    case Case(_, alts, default) =>
      MoreIsSafe(p, known, safe, more, default);
      forall i | 0 <= i < |alts|
        ensures NeverSuspends(p, known, more, alts[i].body)
      {
        MoreIsSafe(p, known, safe, more, alts[i].body);
      }
    case Drop(_, body) => MoreIsSafe(p, known, safe, more, body);
    case _ =>
  }

  /** The known functions that never suspend: start from all of them and drop those that
      fail, until none does.  What is left is consistent, and contains every consistent
      set. */
  method DirectSafe(p: Program, known: Known) returns (safe: set<nat>)
    ensures Consistent(p, known, safe)
    ensures forall other: set<nat> :: Consistent(p, known, other) ==> other <= safe
  {
    safe := known.Keys;
    while true
      invariant safe <= known.Keys
      invariant forall other: set<nat> :: Consistent(p, known, other) ==> other <= safe
      decreases |safe|
    {
      var failed := set caf | caf in safe && !NeverSuspends(p, known, safe, InnerBody(p, known[caf]));
      if failed == {} {
        forall caf | caf in safe
          ensures NeverSuspends(p, known, safe, InnerBody(p, known[caf]))
        {
          assert caf !in failed;
        }
        return;
      }
      forall other: set<nat> | Consistent(p, known, other)
        ensures other <= safe - failed
      {
        forall caf | caf in other
          ensures caf !in failed
        {
          MoreIsSafe(p, known, other, safe, InnerBody(p, known[caf]));
        }
      }
      var caf :| caf in failed;
      assert caf in safe && caf !in safe - failed;
      safe := safe - failed;
    }
  }

  // ---- what keeps a function out ------------------------------------------

  /** `s` is somewhere in `e`. */
  predicate Part(e: Expr, s: Expr)
    decreases e
  {
    || s == e
    || match e
       case Let(_, rhs, body) => Part(rhs, s) || Part(body, s)
       case Case(_, alts, default) => Part(default, s) || exists i :: 0 <= i < |alts| && Part(alts[i].body, s)
       case Drop(_, body) => Part(body, s)
       case Handle(body, _, _) => Part(body, s)
       case Defer(_, body) => Part(body, s)
       case _ => false
  }

  /** A call of something that is not known, of a known function outside `safe`, of a
      foreign function of more than one operand, or of something that takes none. */
  predicate BadCall(p: Program, known: Known, safe: set<nat>, fun: Atom) {
    || !fun.Glob?
    || if fun.name in p.globals then
         var caf := p.globals[fun.name];
         if caf in known then caf !in safe || Arity(known[caf]) == 0
         else caf >= |p.codes| || p.codes[caf].nparams != 0 || !p.codes[caf].body.Ret? || !p.codes[caf].body.atom.Foreign?
              || p.codes[caf].body.atom.arity > 1
       else fun.name !in p.builtins || p.builtins[fun.name] == 0
  }

  /** It installs a handler or a cleanup, or is such a call. */
  predicate Offends(p: Program, known: Known, safe: set<nat>, s: Expr) {
    s.Handle? || s.Defer? || (s.App? && BadCall(p, known, safe, s.fun))
  }

  lemma {:induction false} PartOfPart(e: Expr, mid: Expr, s: Expr)
    requires Part(e, mid) && Part(mid, s)
    ensures Part(e, s)
    decreases e
  {
    if mid != e {
      match e
      case Let(_, rhs, body) =>
        if Part(rhs, mid) {
          PartOfPart(rhs, mid, s);
        } else {
          PartOfPart(body, mid, s);
        }
      case Case(_, alts, default) =>
        if Part(default, mid) {
          PartOfPart(default, mid, s);
        } else {
          var i :| 0 <= i < |alts| && Part(alts[i].body, mid);
          PartOfPart(alts[i].body, mid, s);
        }
      case Drop(_, body) => PartOfPart(body, mid, s);
      case Handle(body, _, _) => PartOfPart(body, mid, s);
      case Defer(_, body) => PartOfPart(body, mid, s);
    }
  }

  lemma {:induction false} RestIsPart(name: nat, arity: nat, args: seq<Atom>, slots: seq<nat>, drops: seq<nat>, cur: Expr)
    requires |slots| > 0
    ensures var c := ChainFrom(name, arity, args, slots, drops, cur); c.Some? && c.value.rest.Some? ==> Part(cur, c.value.rest.value.1)
    decreases cur
  {
    if |args| != arity {
      match cur
      case Drop(more, body) => RestIsPart(name, arity, args, slots, drops + more, body);
      case Let(next, rhs, body) =>
        if rhs.App? {
          RestIsPart(name, arity, args + [rhs.arg], slots + [next], drops, body);
        }
      case _ =>
    }
  }

  /** The analysis refuses nothing without a reason in the code. */
  lemma {:induction false} RefusedForCause(p: Program, known: Known, safe: set<nat>, e: Expr) returns (s: Expr)
    requires !NeverSuspends(p, known, safe, e)
    ensures Part(e, s) && Offends(p, known, safe, s)
    decreases e
  {
    s := e;
    match e
    case Let(slot, rhs, body) =>
      var call := ChainSpec(p, known, slot, rhs, body);
      if call.Some? {
        if CalleeOk(call.value.callee, safe) {
          RestIsPart(rhs.fun.name, CalleeOf(p, known, rhs.fun.name).value.1, [rhs.arg], [slot], [], body);
          s := RefusedForCause(p, known, safe, call.value.rest.value.1);
          PartOfPart(body, call.value.rest.value.1, s);
        } else {
          s := rhs;
        }
      } else if !NeverSuspends(p, known, safe, rhs) {
        s := RefusedForCause(p, known, safe, rhs);
      } else {
        s := RefusedForCause(p, known, safe, body);
      }
    case Case(_, alts, default) =>
      if NeverSuspends(p, known, safe, default) {
        var i :| 0 <= i < |alts| && !NeverSuspends(p, known, safe, alts[i].body);
        s := RefusedForCause(p, known, safe, alts[i].body);
      } else {
        s := RefusedForCause(p, known, safe, default);
      }
    case Drop(_, body) => s := RefusedForCause(p, known, safe, body);
    case _ =>
  }

  /** So a known function is left out of the greatest consistent set only if its code
      installs a handler or a cleanup, or makes such a call. */
  lemma LeftOutForCause(p: Program, known: Known, safe: set<nat>, caf: nat) returns (s: Expr)
    requires Consistent(p, known, safe) && (forall other: set<nat> :: Consistent(p, known, other) ==> other <= safe)
    requires caf in known && caf !in safe
    ensures Part(InnerBody(p, known[caf]), s) && Offends(p, known, safe, s)
  {
    var more := safe + {caf};
    assert caf in more;
    if NeverSuspends(p, known, safe, InnerBody(p, known[caf])) {
      forall c | c in more
        ensures NeverSuspends(p, known, more, InnerBody(p, known[c]))
      {
        MoreIsSafe(p, known, safe, more, InnerBody(p, known[c]));
      }
      assert Consistent(p, known, more);
      assert false;
    }
    s := RefusedForCause(p, known, safe, InnerBody(p, known[caf]));
  }

  // ---- what it means ------------------------------------------------------

  /** Every known function is the chain of its global. */
  ghost predicate AllChains(p: Program, known: Known) {
    forall caf :: caf in known ==> IsChain(p, caf, known[caf])
  }

  /** The value of a callee applied to its first `k` arguments, short of them all. */
  ghost predicate PartialVal(p: Program, known: Known, name: nat, callee: Callee, arity: nat, k: nat, v: Val) {
    k < arity &&
    match callee
    case OfKnown(caf) => caf in known && Arity(known[caf]) == arity && v.Clo? && v.code == known[caf].codes[k]
    case OfPrim => name in p.builtins && p.builtins[name] == arity && v.Prim? && v.name == name && |v.args| == k
    case OfForeign => v.Ext? && |v.args| == k && arity == (if v.arity > 1 then v.arity else 1)
  }

  /** What a callee's global evaluates to: the callee applied to nothing yet. */
  lemma GlobalIsPartial(p: Program, w: World, known: Known, name: nat, tick: nat)
    requires AllChains(p, known) && CalleeOf(p, known, name).Some?
    ensures var (callee, arity) := CalleeOf(p, known, name).value; var v := GlobalValue(p, w, name, tick);
            v.Some? && (arity > 0 ==> PartialVal(p, known, name, callee, arity, 0, v.value))
  {
    if name in p.globals && p.globals[name] in known {
      assert IsChain(p, p.globals[name], known[p.globals[name]]);
    }
  }

  /** Running a code that only returns a closure yields that closure, or fails. */
  lemma {:induction false} ReturnsClosure(p: Program, w: World, e: Expr, fr: Frame, tick: nat, fuel: nat)
    requires ReturnedClosure(e).Some?
    ensures var r := Eval(p, w, e, fr, tick, fuel);
            r.Stuck? || r.Faulty? || (r.Done? && r.value.Clo? && r.value.code == ReturnedClosure(e).value.0)
    decreases e
  {
    if e.Drop? {
      ReturnsClosure(p, w, e.body, fr.(locals := Clear(fr.locals, e.slots)), tick, fuel);
    }
  }

  /** The code after the `k`-th of a chain is the one its body returns. */
  lemma {:induction false} LinkAt(p: Program, codes: seq<nat>, k: nat)
    requires ChainEnv(p, codes).Some? && k + 1 < |codes|
    ensures codes[k] < |p.codes| && ReturnedClosure(p.codes[codes[k]].body).Some?
    ensures ReturnedClosure(p.codes[codes[k]].body).value.0 == codes[k + 1]
    decreases |codes|
  {
    var shorter := codes[..|codes| - 1];
    if k + 1 < |codes| - 1 {
      LinkAt(p, shorter, k);
    } else {
      assert shorter[|shorter| - 1] == codes[k];
    }
  }

  /** A partial application takes one more argument: short of the last it yields the next
      partial application, and the last runs the callee. */
  lemma MorePartial(p: Program, w: World, known: Known, safe: set<nat>, name: nat, callee: Callee, arity: nat, k: nat,
                    v: Val, arg: Val, fr: Frame, tick: nat, fuel: nat)
    requires AllChains(p, known) && PartialVal(p, known, name, callee, arity, k, v) && k + 1 < arity
    ensures var r := Apply(p, w, v, arg, fr, tick, fuel);
            !r.Suspends? && (r.Done? ==> r.frame == fr && PartialVal(p, known, name, callee, arity, k + 1, r.value))
  {
    if callee.OfKnown? {
      var f := known[callee.caf];
      assert IsChain(p, callee.caf, f);
      LinkAt(p, f.codes, k);
      if v.code < |p.codes| && p.codes[v.code].nlocals > 0 && fuel > 0 {
        ReturnsClosure(p, w, p.codes[v.code].body, Enter(p, v.code, v.env, arg), tick, fuel - 1);
      }
    }
  }

  /** The argument of an application may be emptied reading it, but no slot gains a
      value. */
  ghost predicate Emptier(fr: Frame, fr': Frame) {
    && |fr'.locals| == |fr.locals| && |fr'.env| == |fr.env|
    && forall i :: 0 <= i < |fr.locals| ==> fr'.locals[i] == fr.locals[i] || fr'.locals[i].None?
  }

  lemma {:induction false} ReadEmpties(p: Program, w: World, a: Atom, fr: Frame, tick: nat)
    ensures var r := ReadAtom(p, w, a, fr, tick); r.Got? ==> Emptier(fr, r.frame)
    decreases a
  {
    if a.Clos? {
      ReadAllEmpties(p, w, a.captures, fr, tick);
    }
  }

  lemma {:induction false} ReadAllEmpties(p: Program, w: World, atoms: seq<Atom>, fr: Frame, tick: nat)
    ensures var r := ReadAtoms(p, w, atoms, fr, tick); r.Gots? ==> Emptier(fr, r.frame)
    decreases atoms
  {
    if |atoms| > 0 {
      ReadEmpties(p, w, atoms[0], fr, tick);
      var first := ReadAtom(p, w, atoms[0], fr, tick);
      if first.Got? {
        ReadAllEmpties(p, w, atoms[1..], first.frame, tick);
      }
    }
  }

  lemma {:induction false} ClearEmpties(locals: seq<Option<Val>>, slots: seq<nat>)
    ensures forall i :: 0 <= i < |locals| ==> Clear(locals, slots)[i] == locals[i] || Clear(locals, slots)[i].None?
    decreases |slots|
  {
    if |slots| > 0 {
      ClearEmpties(if slots[0] < |locals| then locals[slots[0] := None] else locals, slots[1..]);
    }
  }

  /** The slot a chain keeps its partial application in, if it has not been emptied. */
  ghost predicate Keeps(p: Program, known: Known, name: nat, callee: Callee, arity: nat, k: nat, partial: nat, fr: Frame) {
    k < arity && partial < |fr.locals| && fr.locals[partial].Some? ==> PartialVal(p, known, name, callee, arity, k, fr.locals[partial].value)
  }

  /** The last argument of a saturated call: a known callee's innermost body runs, one
      step of fuel down. */
  lemma LastPartial(p: Program, w: World, known: Known, safe: set<nat>, name: nat, callee: Callee, arity: nat,
                    v: Val, arg: Val, fr: Frame, tick: nat, fuel: nat)
    requires AllChains(p, known) && Consistent(p, known, safe) && CalleeOk(callee, safe)
    requires arity > 0 && PartialVal(p, known, name, callee, arity, arity - 1, v)
    ensures !Apply(p, w, v, arg, fr, tick, fuel).Suspends?
    decreases fuel, 0, Fail, 0
  {
    if callee.OfKnown? && fuel > 0 && v.code < |p.codes| && p.codes[v.code].nlocals > 0 {
      var f := known[callee.caf];
      assert IsChain(p, callee.caf, f);
      assert InnerBody(p, f) == p.codes[v.code].body;
      DirectNeverSuspends(p, w, known, safe, p.codes[v.code].body, Enter(p, v.code, v.env, arg), tick, fuel - 1);
    }
  }

  /** One application of a chain: the partial in its slot to one more argument. */
  lemma StepPartial(p: Program, w: World, known: Known, safe: set<nat>, name: nat, callee: Callee, arity: nat, k: nat,
                    partial: nat, arg: Atom, fr: Frame, tick: nat, fuel: nat)
    requires AllChains(p, known) && Consistent(p, known, safe) && CalleeOk(callee, safe)
    requires k < arity && Keeps(p, known, name, callee, arity, k, partial, fr)
    ensures var r := AppStep(p, w, Move(partial), arg, fr, tick, fuel);
            !r.Suspends? && (r.Done? ==> |r.frame.locals| == |fr.locals| && (k + 1 < arity ==> PartialVal(p, known, name, callee, arity, k + 1, r.value)))
    decreases fuel, 0, Fail, 1
  {
    hide AllChains, Consistent, PartialVal, Apply, CalleeOk;
    var got := ReadAtom(p, w, Move(partial), fr, tick);
    if got.Got? {
      ReadEmpties(p, w, arg, got.frame, tick);
      var got2 := ReadAtom(p, w, arg, got.frame, tick);
      if got2.Got? {
        if k + 1 < arity {
          MorePartial(p, w, known, safe, name, callee, arity, k, got.value, got2.value, got2.frame, tick, fuel);
        } else {
          LastPartial(p, w, known, safe, name, callee, arity, got.value, got2.value, got2.frame, tick, fuel);
          ApplyKeepsFrame(p, w, got.value, got2.value, got2.frame, tick, fuel);
        }
      }
    }
  }

  lemma ApplyKeepsFrame(p: Program, w: World, f: Val, arg: Val, fr: Frame, tick: nat, fuel: nat)
    ensures var r := Apply(p, w, f, arg, fr, tick, fuel); r.Done? ==> r.frame == fr
  {
  }

  /** The rest of a chain never suspends. */
  lemma {:induction false} ChainNeverSuspends(p: Program, w: World, known: Known, safe: set<nat>, name: nat, callee: Callee, arity: nat,
                                              args: seq<Atom>, used: seq<nat>, drops: seq<nat>, cur: Expr, fr: Frame, tick: nat, fuel: nat)
    requires AllChains(p, known) && Consistent(p, known, safe) && CalleeOk(callee, safe)
    requires |used| > 0 && |args| <= arity && Keeps(p, known, name, callee, arity, |args|, used[|used| - 1], fr)
    requires var c := ChainFrom(name, arity, args, used, drops, cur);
             c.Some? && (c.value.rest.Some? ==> NeverSuspends(p, known, safe, c.value.rest.value.1))
    ensures !Eval(p, w, cur, fr, tick, fuel).Suspends?
    decreases fuel, 1, cur, 2
  {
    hide AllChains, Consistent, NeverSuspends, PartialVal, AppStep, Apply, CalleeOk;
    var partial := used[|used| - 1];
    if |args| == arity {
      DirectNeverSuspends(p, w, known, safe, cur, fr, tick, fuel);
    } else {
      match cur
      case Drop(slots, body) =>
        ClearEmpties(fr.locals, slots);
        ChainNeverSuspends(p, w, known, safe, name, callee, arity, args, used, drops + slots, body, fr.(locals := Clear(fr.locals, slots)), tick, fuel);
      case App(_, arg) =>
        StepPartial(p, w, known, safe, name, callee, arity, |args|, partial, arg, fr, tick, fuel);
      case Let(next, rhs, body) =>
        StepPartial(p, w, known, safe, name, callee, arity, |args|, partial, rhs.arg, fr, tick, fuel);
        var r := Eval(p, w, rhs, fr, tick, fuel);
        if r.Done? && next < |r.frame.locals| {
          var fr' := r.frame.(locals := r.frame.locals[next := Some(r.value)]);
          ChainNeverSuspends(p, w, known, safe, name, callee, arity, args + [rhs.arg], used + [next], drops, body, fr', r.tick, fuel);
        }
    }
  }

  /** A callee's global applied to its first argument. */
  lemma FirstArgument(p: Program, w: World, known: Known, safe: set<nat>, name: nat, arg: Atom, fr: Frame, tick: nat, fuel: nat)
    requires AllChains(p, known) && Consistent(p, known, safe) && CalleeOf(p, known, name).Some?
    requires var (callee, arity) := CalleeOf(p, known, name).value; arity > 0 && (arity == 1 ==> CalleeOk(callee, safe))
    ensures var (callee, arity) := CalleeOf(p, known, name).value;
            var r := AppStep(p, w, Glob(name), arg, fr, tick, fuel);
            !r.Suspends? && (r.Done? ==> 1 < arity ==> PartialVal(p, known, name, callee, arity, 1, r.value))
    decreases fuel, 0, Fail, 1
  {
    var (callee, arity) := CalleeOf(p, known, name).value;
    GlobalIsPartial(p, w, known, name, tick);
    var v := GlobalValue(p, w, name, tick).value;
    var got := ReadAtom(p, w, arg, fr, tick);
    if got.Got? {
      if arity > 1 {
        MorePartial(p, w, known, safe, name, callee, arity, 0, v, got.value, got.frame, tick, fuel);
      } else {
        LastPartial(p, w, known, safe, name, callee, arity, v, got.value, got.frame, tick, fuel);
      }
    }
  }

  /** Code the analysis accepts never installs a handler or a cleanup, and never applies
      an operation or a resumption, from any activation and however long it runs. */
  lemma {:induction false} DirectNeverSuspends(p: Program, w: World, known: Known, safe: set<nat>, e: Expr, fr: Frame, tick: nat, fuel: nat)
    requires AllChains(p, known) && Consistent(p, known, safe) && NeverSuspends(p, known, safe, e)
    ensures !Eval(p, w, e, fr, tick, fuel).Suspends?
    decreases fuel, 1, e, 1
  {
    match e
    case Let(slot, rhs, body) =>
      LetNeverSuspends(p, w, known, safe, slot, rhs, body, fr, tick, fuel);
    case App(fun, arg) =>
      var lone := LoneCall(p, known, fun, arg);
      if lone.Some? {
        FirstArgument(p, w, known, safe, fun.name, arg, fr, tick, fuel);
      } else {
        PartialNeverSuspends(p, w, known, fun, arg, fr, tick, fuel);
      }
    case Case(scrut, alts, default) =>
      var got := ReadAtom(p, w, scrut, fr, tick);
      if got.Got? {
        var forced := w.force(got.value, tick);
        if forced.Some? {
          var k := Select(alts, forced.value);
          if k == |alts| {
            DirectNeverSuspends(p, w, known, safe, default, got.frame, tick + 1, fuel);
          } else {
            var alt := alts[k];
            var locals := if alt.kind.OnCon? then Bind(Empties(got.frame.locals, alt.unpack), alt.base, alt.binders, forced.value.fields) else got.frame.locals;
            DirectNeverSuspends(p, w, known, safe, alt.body, got.frame.(locals := locals), tick + 1, fuel);
          }
        }
      }
    case Drop(slots, body) =>
      DirectNeverSuspends(p, w, known, safe, body, fr.(locals := Clear(fr.locals, slots)), tick, fuel);
    case _ =>
  }

  lemma LetNeverSuspends(p: Program, w: World, known: Known, safe: set<nat>, slot: nat, rhs: Expr, body: Expr, fr: Frame, tick: nat, fuel: nat)
    requires AllChains(p, known) && Consistent(p, known, safe) && NeverSuspends(p, known, safe, Let(slot, rhs, body))
    ensures !Eval(p, w, Let(slot, rhs, body), fr, tick, fuel).Suspends?
    decreases fuel, 1, Let(slot, rhs, body), 0
  {
    var call := ChainSpec(p, known, slot, rhs, body);
    var r := Eval(p, w, rhs, fr, tick, fuel);
    if call.None? {
      DirectNeverSuspends(p, w, known, safe, rhs, fr, tick, fuel);
      if r.Done? && slot < |r.frame.locals| {
        DirectNeverSuspends(p, w, known, safe, body, r.frame.(locals := r.frame.locals[slot := Some(r.value)]), r.tick, fuel);
      }
    } else {
      var (callee, arity) := CalleeOf(p, known, rhs.fun.name).value;
      FirstArgument(p, w, known, safe, rhs.fun.name, rhs.arg, fr, tick, fuel);
      if r.Done? && slot < |r.frame.locals| {
        var fr' := r.frame.(locals := r.frame.locals[slot := Some(r.value)]);
        ChainNeverSuspends(p, w, known, safe, rhs.fun.name, callee, arity, [rhs.arg], [slot], [], body, fr', r.tick, fuel);
      }
    }
  }

  lemma PartialNeverSuspends(p: Program, w: World, known: Known, fun: Atom, arg: Atom, fr: Frame, tick: nat, fuel: nat)
    requires AllChains(p, known) && PartialCallee(p, known, fun)
    ensures !AppStep(p, w, fun, arg, fr, tick, fuel).Suspends?
  {
    var name := fun.name;
    var (callee, arity) := CalleeOf(p, known, name).value;
    GlobalIsPartial(p, w, known, name, tick);
    var v := GlobalValue(p, w, name, tick).value;
    var got := ReadAtom(p, w, arg, fr, tick);
    if got.Got? {
      MorePartial(p, w, known, {}, name, callee, arity, 0, v, got.value, got.frame, tick, fuel);
    }
  }

  /** A run entered at any member's inner code, with any activation. */
  lemma MembersNeverSuspend(p: Program, w: World, known: Known, safe: set<nat>, caf: nat, fr: Frame, tick: nat, fuel: nat)
    requires AllChains(p, known) && Consistent(p, known, safe) && caf in safe
    ensures !Eval(p, w, InnerBody(p, known[caf]), fr, tick, fuel).Suspends?
  {
    DirectNeverSuspends(p, w, known, safe, InnerBody(p, known[caf]), fr, tick, fuel);
  }
}
