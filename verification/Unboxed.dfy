/** Why unboxed results are sound: a direct function said to return integers returns
    one, if it returns. */
module Unboxed {
  import opened Common
  import opened Ir
  import opened Currying
  import opened Direct
  import opened Signatures

  /** The program under its signatures. */
  datatype Setting = Setting(p: Program, w: World, known: Known, intr: Intrinsics, sigs: Sigs)

  // ---- evaluation with unboxed arguments ----------------------------------

  /** The arguments a code is entered with are integers where the signatures of the
      functions it is the innermost code of say so. */
  ghost predicate EntryOk(s: Setting, code: nat, env: seq<Val>, arg: Val) {
    forall caf :: caf in s.sigs && caf in s.known && Arity(s.known[caf]) > 0 && s.known[caf].codes[Arity(s.known[caf]) - 1] == code ==>
      && (Unboxes(s.sigs[caf], Arity(s.known[caf]) - 1) ==> arg.Int?)
      && forall j :: 0 <= j < |s.known[caf].env| && j < |env| && Unboxes(s.sigs[caf], s.known[caf].env[j]) ==> env[j].Int?
  }

  predicate Unboxes(sig: Sig, k: nat) {
    k < |sig.intParams| && sig.intParams[k]
  }

  /** As `Apply`, but a non-integer passed where an integer is expected is stuck. */
  ghost function TApply(s: Setting, f: Val, arg: Val, fr: Frame, tick: nat, fuel: nat): Outcome
    decreases fuel, 1, Fail
  {
    match f
    case Clo(code, env) =>
      if code >= |s.p.codes| || s.p.codes[code].nlocals == 0 then Faulty
      else if !EntryOk(s, code, env, arg) then Stuck
      else if fuel == 0 then OutOfFuel
      else
        (match TEval(s, s.p.codes[code].body, Enter(s.p, code, env, arg), tick, fuel - 1)
         case Done(v, _, t) => Done(v, fr, t)
         case other => other)
    case _ => Apply(s.p, s.w, f, arg, fr, tick, fuel)
  }

  ghost function TAppStep(s: Setting, fun: Atom, arg: Atom, fr: Frame, tick: nat, fuel: nat): Outcome
    decreases fuel, 2, Fail
  {
    match ReadAtom(s.p, s.w, fun, fr, tick)
    case Empty => Stuck
    case Missing => Faulty
    case Got(f, fr1) =>
      match ReadAtom(s.p, s.w, arg, fr1, tick)
      case Empty => Stuck
      case Missing => Faulty
      case Got(v, fr2) => TApply(s, f, v, fr2, tick, fuel)
  }

  ghost function TEval(s: Setting, e: Expr, fr: Frame, tick: nat, fuel: nat): Outcome
    decreases fuel, 3, e
  {
    match e
    case Let(slot, rhs, body) =>
      (match TEval(s, rhs, fr, tick, fuel)
       case Done(v, fr1, t) =>
         if slot >= |fr1.locals| then Faulty
         else TEval(s, body, fr1.(locals := fr1.locals[slot := Some(v)]), t, fuel)
       case other => other)
    case App(fun, arg) => TAppStep(s, fun, arg, fr, tick, fuel)
    case Case(scrut, alts, default) =>
      (match ReadAtom(s.p, s.w, scrut, fr, tick)
       case Empty => Stuck
       case Missing => Faulty
       case Got(x, fr1) =>
         var forced := s.w.force(x, tick);
         if forced.None? then Faulty
         else
           var k := Select(alts, forced.value);
           if k == |alts| then TEval(s, default, fr1, tick + 1, fuel)
           else TEval(s, alts[k].body, Into(alts[k], forced.value, fr1), tick + 1, fuel))
    case Drop(slots, body) => TEval(s, body, fr.(locals := Clear(fr.locals, slots)), tick, fuel)
    case _ => Eval(s.p, s.w, e, fr, tick, fuel)
  }

  function Into(alt: Alt, v: Val, fr: Frame): Frame
    requires Matches(alt.kind, v)
  {
    fr.(locals := if alt.kind.OnCon? then Bind(Empties(fr.locals, alt.unpack), alt.base, alt.binders, v.fields) else fr.locals)
  }

  /** Where it finishes, it finishes as the plain evaluation does. */
  lemma {:induction false} TAgrees(s: Setting, e: Expr, fr: Frame, tick: nat, fuel: nat)
    requires TEval(s, e, fr, tick, fuel).Done?
    ensures Eval(s.p, s.w, e, fr, tick, fuel) == TEval(s, e, fr, tick, fuel)
    decreases fuel, 3, e
  {
    match e
    case Let(slot, rhs, body) =>
      TAgrees(s, rhs, fr, tick, fuel);
      var r := TEval(s, rhs, fr, tick, fuel);
      TAgrees(s, body, r.frame.(locals := r.frame.locals[slot := Some(r.value)]), r.tick, fuel);
    case App(fun, arg) => TAppAgrees(s, fun, arg, fr, tick, fuel);
    case Case(scrut, alts, default) =>
      var got := ReadAtom(s.p, s.w, scrut, fr, tick);
      var forced := s.w.force(got.value, tick);
      var k := Select(alts, forced.value);
      if k == |alts| {
        TAgrees(s, default, got.frame, tick + 1, fuel);
      } else {
        TAgrees(s, alts[k].body, Into(alts[k], forced.value, got.frame), tick + 1, fuel);
      }
    case Drop(slots, body) => TAgrees(s, body, fr.(locals := Clear(fr.locals, slots)), tick, fuel);
    case _ =>
  }

  lemma TAppAgrees(s: Setting, fun: Atom, arg: Atom, fr: Frame, tick: nat, fuel: nat)
    requires TAppStep(s, fun, arg, fr, tick, fuel).Done?
    ensures AppStep(s.p, s.w, fun, arg, fr, tick, fuel) == TAppStep(s, fun, arg, fr, tick, fuel)
    decreases fuel, 2, Fail
  {
    var f := ReadAtom(s.p, s.w, fun, fr, tick);
    var v := ReadAtom(s.p, s.w, arg, f.frame, tick);
    TApplyAgrees(s, f.value, v.value, v.frame, tick, fuel);
  }

  lemma TApplyAgrees(s: Setting, f: Val, arg: Val, fr: Frame, tick: nat, fuel: nat)
    requires TApply(s, f, arg, fr, tick, fuel).Done?
    ensures Apply(s.p, s.w, f, arg, fr, tick, fuel) == TApply(s, f, arg, fr, tick, fuel)
    decreases fuel, 1, Fail
  {
    if f.Clo? {
      TAgrees(s, s.p.codes[f.code].body, Enter(s.p, f.code, f.env, arg), tick, fuel - 1);
    }
  }

  // ---- slots read and slots bound -----------------------------------------

  function AtomReads(a: Atom): set<nat>
    decreases a
  {
    match a
    case Local(i) => {i}
    case Move(i) => {i}
    case Clos(_, captures) => AtomsRead(captures)
    case _ => {}
  }

  function AtomsRead(atoms: seq<Atom>): set<nat>
    decreases atoms
  {
    if |atoms| == 0 then {} else AtomReads(atoms[0]) + AtomsRead(atoms[1..])
  }

  /** Every slot an expression may read. */
  function Reads(e: Expr): set<nat>
    decreases e
  {
    match e
    case Ret(a) => AtomReads(a)
    case Let(_, rhs, body) => Reads(rhs) + Reads(body)
    case App(fun, arg) => AtomReads(fun) + AtomReads(arg)
    case Case(scrut, alts, default) => AtomReads(scrut) + AltsRead(alts) + Reads(default)
    case Build(_, fields) => AtomsRead(fields)
    case Access(_, record, fields) => AtomReads(record) + AtomsRead(fields)
    case Handle(body, clauses, els) => Reads(body) + AtomsRead(Funs(clauses)) + AtomReads(els)
    case Defer(cleanup, body) => AtomReads(cleanup) + Reads(body)
    case Drop(_, body) => Reads(body)
    case Fail => {}
  }

  function AltsRead(alts: seq<Alt>): set<nat>
    decreases alts
  {
    if |alts| == 0 then {} else Reads(alts[0].body) + AltsRead(alts[1..])
  }

  function Range(base: nat, n: nat): (r: set<nat>)
    ensures forall i :: i in r <==> base <= i < base + n
    decreases n
  {
    if n == 0 then {} else Range(base, n - 1) + {base + n - 1}
  }

  /** Every slot an expression may fill. */
  function Binds(e: Expr): set<nat>
    decreases e
  {
    match e
    case Let(slot, rhs, body) => {slot} + Binds(rhs) + Binds(body)
    case Case(_, alts, default) => AltsBind(alts) + Binds(default)
    case Handle(body, _, _) => Binds(body)
    case Defer(_, body) => Binds(body)
    case Drop(_, body) => Binds(body)
    case _ => {}
  }

  function AltsBind(alts: seq<Alt>): set<nat>
    decreases alts
  {
    if |alts| == 0 then {}
    else Range(alts[0].base, |alts[0].binders|) + Binds(alts[0].body) + AltsBind(alts[1..])
  }

  /** No slot bound in a let's right side is read by its body. */
  predicate Scoped(e: Expr)
    decreases e
  {
    match e
    case Let(_, rhs, body) => Binds(rhs) !! Reads(body) && Scoped(rhs) && Scoped(body)
    case Case(_, alts, default) => (forall i :: 0 <= i < |alts| ==> Scoped(alts[i].body)) && Scoped(default)
    case Handle(body, _, _) => Scoped(body)
    case Defer(_, body) => Scoped(body)
    case Drop(_, body) => Scoped(body)
    case _ => true
  }

  lemma {:induction false} AltRead(alts: seq<Alt>, k: nat)
    requires k < |alts|
    ensures Reads(alts[k].body) <= AltsRead(alts)
    ensures Range(alts[k].base, |alts[k].binders|) + Binds(alts[k].body) <= AltsBind(alts)
  {
    if k > 0 {
      AltRead(alts[1..], k - 1);
    }
  }

  /** What follows a chain is scoped, reads nothing the chain's body does not, and its
      result goes to a slot the chain binds. */
  lemma {:induction false} RestWithin(name: nat, arity: nat, args: seq<Atom>, used: seq<nat>, drops: seq<nat>, cur: Expr)
    requires |used| > 0 && Scoped(cur) && ChainFrom(name, arity, args, used, drops, cur).Some?
    ensures var rest := ChainFrom(name, arity, args, used, drops, cur).value.rest;
            rest.Some? ==>
              && Scoped(rest.value.1) && Reads(rest.value.1) <= Reads(cur)
              && {rest.value.0} + Binds(rest.value.1) <= {used[|used| - 1]} + Binds(cur)
    decreases cur
  {
    if |args| != arity {
      match cur
      case Drop(slots, body) => RestWithin(name, arity, args, used, drops + slots, body);
      case Let(next, rhs, body) => RestWithin(name, arity, args + [rhs.arg], used + [next], drops, body);
      case _ =>
    }
  }

  // ---- what evaluation leaves alone ---------------------------------------

  /** Outside `but`, a slot holds what it held or nothing; so does the record. */
  ghost predicate Leaves(fr: Frame, fr': Frame, but: set<nat>) {
    && |fr'.locals| == |fr.locals| && |fr'.env| == |fr.env|
    && (forall i :: 0 <= i < |fr.locals| && i !in but ==> fr'.locals[i] == fr.locals[i] || fr'.locals[i].None?)
    && (forall i :: 0 <= i < |fr.env| ==> fr'.env[i] == fr.env[i] || fr'.env[i].None?)
  }

  lemma LeavesTrans(a: Frame, b: Frame, c: Frame, but: set<nat>, more: set<nat>)
    requires Leaves(a, b, but) && Leaves(b, c, more)
    ensures Leaves(a, c, but + more)
  {
  }

  lemma LeavesMore(a: Frame, b: Frame, but: set<nat>, more: set<nat>)
    requires Leaves(a, b, but) && but <= more
    ensures Leaves(a, b, more)
  {
  }

  lemma {:induction false} ReadLeaves(p: Program, w: World, a: Atom, fr: Frame, tick: nat)
    ensures var r := ReadAtom(p, w, a, fr, tick); r.Got? ==> Leaves(fr, r.frame, {})
    decreases a
  {
    if a.Clos? {
      ReadAllLeave(p, w, a.captures, fr, tick);
    }
  }

  lemma {:induction false} ReadAllLeave(p: Program, w: World, atoms: seq<Atom>, fr: Frame, tick: nat)
    ensures var r := ReadAtoms(p, w, atoms, fr, tick); r.Gots? ==> Leaves(fr, r.frame, {})
    decreases atoms
  {
    if |atoms| > 0 {
      ReadLeaves(p, w, atoms[0], fr, tick);
      var r := ReadAtom(p, w, atoms[0], fr, tick);
      if r.Got? {
        ReadAllLeave(p, w, atoms[1..], r.frame, tick);
      }
    }
  }

  lemma {:induction false} BindLeaves(row: seq<Option<Val>>, base: nat, binders: seq<bool>, fields: seq<Val>)
    ensures forall i :: 0 <= i < |row| && i !in Range(base, |binders|) ==> Bind(row, base, binders, fields)[i] == row[i]
    decreases |binders|
  {
    if |binders| > 0 && |fields| > 0 {
      var row' := if binders[0] && base < |row| then row[base := Some(fields[0])] else row;
      BindLeaves(row', base + 1, binders[1..], fields[1..]);
      assert forall i :: i !in Range(base, |binders|) ==> i !in Range(base + 1, |binders[1..]|) && i != base;
    }
  }

  lemma IntoLeaves(alt: Alt, v: Val, fr: Frame)
    requires Matches(alt.kind, v)
    ensures Leaves(fr, Into(alt, v, fr), Range(alt.base, |alt.binders|))
  {
    if alt.kind.OnCon? {
      if alt.unpack.Consume? {
        ClearEmpties(fr.locals, [alt.unpack.slot]);
        ClearEmpties(Clear(fr.locals, [alt.unpack.slot]), if alt.unpack.token.Some? then [alt.unpack.token.value] else []);
      }
      BindLeaves(Empties(fr.locals, alt.unpack), alt.base, alt.binders, v.fields);
    }
  }

  lemma {:induction false} EvalLeaves(p: Program, w: World, e: Expr, fr: Frame, tick: nat, fuel: nat)
    requires Eval(p, w, e, fr, tick, fuel).Done?
    ensures Leaves(fr, Eval(p, w, e, fr, tick, fuel).frame, Binds(e))
    decreases e
  {
    match e
    case Ret(a) => ReadLeaves(p, w, a, fr, tick);
    case Let(slot, rhs, body) =>
      EvalLeaves(p, w, rhs, fr, tick, fuel);
      var r := Eval(p, w, rhs, fr, tick, fuel);
      var fr1 := r.frame.(locals := r.frame.locals[slot := Some(r.value)]);
      EvalLeaves(p, w, body, fr1, r.tick, fuel);
      assert Leaves(fr, fr1, {slot} + Binds(rhs));
      LeavesTrans(fr, fr1, Eval(p, w, e, fr, tick, fuel).frame, {slot} + Binds(rhs), Binds(body));
    case App(fun, arg) => AppLeaves(p, w, fun, arg, fr, tick, fuel);
    case Case(scrut, alts, default) => CaseLeaves(p, w, scrut, alts, default, fr, tick, fuel);
    case Build(_, fields) => ReadAllLeave(p, w, fields, fr, tick);
    case Access(_, record, fields) => ReadAllLeave(p, w, [record] + fields, fr, tick);
    case Drop(slots, body) =>
      ClearEmpties(fr.locals, slots);
      var fr1 := fr.(locals := Clear(fr.locals, slots));
      EvalLeaves(p, w, body, fr1, tick, fuel);
      assert Leaves(fr, fr1, {});
      LeavesTrans(fr, fr1, Eval(p, w, e, fr, tick, fuel).frame, {}, Binds(body));
    case _ =>
  }

  lemma AppLeaves(p: Program, w: World, fun: Atom, arg: Atom, fr: Frame, tick: nat, fuel: nat)
    requires AppStep(p, w, fun, arg, fr, tick, fuel).Done?
    ensures Leaves(fr, AppStep(p, w, fun, arg, fr, tick, fuel).frame, {})
  {
    ReadLeaves(p, w, fun, fr, tick);
    var f := ReadAtom(p, w, fun, fr, tick);
    ReadLeaves(p, w, arg, f.frame, tick);
    var v := ReadAtom(p, w, arg, f.frame, tick);
    ApplyKeepsFrame(p, w, f.value, v.value, v.frame, tick, fuel);
  }

  lemma {:induction false} CaseLeaves(p: Program, w: World, scrut: Atom, alts: seq<Alt>, default: Expr, fr: Frame, tick: nat, fuel: nat)
    requires Eval(p, w, Case(scrut, alts, default), fr, tick, fuel).Done?
    ensures Leaves(fr, Eval(p, w, Case(scrut, alts, default), fr, tick, fuel).frame, AltsBind(alts) + Binds(default))
    decreases Case(scrut, alts, default), 0
  {
    hide Leaves;
    ReadLeaves(p, w, scrut, fr, tick);
    var got := ReadAtom(p, w, scrut, fr, tick);
    var forced := w.force(got.value, tick).value;
    var k := Select(alts, forced);
    var last := Eval(p, w, Case(scrut, alts, default), fr, tick, fuel).frame;
    if k == |alts| {
      EvalLeaves(p, w, default, got.frame, tick + 1, fuel);
      LeavesTrans(fr, got.frame, last, {}, Binds(default));
      LeavesMore(fr, last, {} + Binds(default), AltsBind(alts) + Binds(default));
    } else {
      var alt := alts[k];
      var inside := Into(alt, forced, got.frame);
      IntoLeaves(alt, forced, got.frame);
      EvalLeaves(p, w, alt.body, inside, tick + 1, fuel);
      LeavesTrans(fr, got.frame, inside, {}, Range(alt.base, |alt.binders|));
      LeavesTrans(fr, inside, last, {} + Range(alt.base, |alt.binders|), Binds(alt.body));
      AltRead(alts, k);
      LeavesMore(fr, last, {} + Range(alt.base, |alt.binders|) + Binds(alt.body), AltsBind(alts) + Binds(default));
    }
  }

  // ---- what the walk knows ------------------------------------------------

  predicate IntOrEmpty(v: Option<Val>) {
    v.Some? ==> v.value.Int?
  }

  /** The slots in `ints`, of those that may still be read, and the unboxed fields of the
      record hold integers, where they have not been emptied. */
  ghost predicate Fits(c: Ctx, ints: set<nat>, fr: Frame, readable: set<nat>) {
    && (forall i :: i in ints && i in readable && i < |fr.locals| ==> IntOrEmpty(fr.locals[i]))
    && (forall j :: 0 <= j < |fr.env| && j < |c.f.env| && Unboxes(c.sig, c.f.env[j]) ==> IntOrEmpty(fr.env[j]))
  }

  lemma FitsOn(c: Ctx, ints: set<nat>, fr: Frame, readable: set<nat>, ints': set<nat>, fr': Frame, readable': set<nat>, but: set<nat>)
    requires Fits(c, ints, fr, readable) && Leaves(fr, fr', but)
    requires forall i :: i in ints' && i in readable' ==> i in ints && i in readable && i !in but
    ensures Fits(c, ints', fr', readable')
  {
  }

  /** A slot is filled: with an integer, if it is to count as holding one. */
  lemma FitsBind(c: Ctx, ints: set<nat>, fr: Frame, readable: set<nat>, slot: nat, v: Val)
    requires Fits(c, ints - {slot}, fr, readable) && slot < |fr.locals| && (slot in ints ==> v.Int?)
    ensures Fits(c, ints, fr.(locals := fr.locals[slot := Some(v)]), readable)
  {
  }

  lemma {:induction false} RebindAllRemoves(base: nat, n: nat, st: IntState)
    ensures RebindAll(base, n, st).ints == st.ints - Range(base, n)
    decreases n
  {
    if n > 0 {
      RebindAllRemoves(base, n - 1, st);
    }
  }

  /** The walk learns of integers only in slots the body binds. */
  lemma {:induction false} WalkInts(c: Ctx, e: Expr, st: IntState)
    requires Scoped(e)
    ensures Walk(c, e, st).1.ints <= st.ints + Binds(e)
    decreases e
  {
    match e
    case Let(slot, rhs, body) =>
      var call := ChainSpec(c.p, c.known, slot, rhs, body);
      if call.None? {
        WalkInts(c, rhs, st);
        var (isInt, st1) := Walk(c, rhs, st);
        WalkInts(c, body, Rebind(slot, isInt, st1));
      } else if call.value.rest.Some? {
        var (callee, arity) := CalleeOf(c.p, c.known, rhs.fun.name).value;
        RestWithin(rhs.fun.name, arity, [rhs.arg], [slot], [], body);
        var (to, after) := call.value.rest.value;
        WalkInts(c, after, AfterCall(c, slot, to, call.value, st));
      }
    case Drop(_, body) => WalkInts(c, body, st);
    case _ =>
  }

  /** Where a case returns integers, every alternative does, from the state before. */
  lemma {:induction false} AltWalks(c: Ctx, alts: seq<Alt>, st: IntState, k: nat) returns (from: IntState)
    requires WalkAlts(c, alts, st).0 && k < |alts|
    ensures from.ints == st.ints && Walk(c, alts[k].body, InBranch(alts[k], from)).0
    decreases alts
  {
    if k == 0 {
      from := st;
    } else {
      from := AltWalks(c, alts[1..], st.(evidence := Walk(c, alts[0].body, InBranch(alts[0], st)).1.evidence), k - 1);
    }
  }

  // ---- soundness ----------------------------------------------------------

  /** Intrinsics that yield no truth value yield integers. */
  ghost predicate IntegerPrims(w: World, intr: Intrinsics) {
    forall name, args, t :: name in intr && !intr[name].boolean && w.prim(name, args, t).Some? ==> w.prim(name, args, t).value.Int?
  }

  /** What the claim rests on: the signatures are consistent, every known function is
      the chain of its global, and no code's body reads a slot bound in a right side. */
  ghost predicate Sound(s: Setting) {
    && RetsHold(s.p, s.known, s.intr, s.sigs) && AllChains(s.p, s.known) && IntegerPrims(s.w, s.intr)
    && forall code :: 0 <= code < |s.p.codes| ==> Scoped(s.p.codes[code].body)
  }

  ghost predicate InSetting(s: Setting, c: Ctx) {
    c.p == s.p && c.known == s.known && c.intr == s.intr && c.sigs == s.sigs
  }

  /** A body whose walk says so returns an integer, if it returns. */
  lemma {:induction false} WalkSound(s: Setting, c: Ctx, e: Expr, st: IntState, fr: Frame, tick: nat, fuel: nat)
    requires Sound(s) && InSetting(s, c) && Walk(c, e, st).0
    requires Scoped(e) && Fits(c, st.ints, fr, Reads(e))
    ensures var r := TEval(s, e, fr, tick, fuel); r.Done? ==> r.value.Int?
    decreases fuel, 1, e, 2
  {
    hide Sound;
    match e
    case Let(slot, rhs, body) => LetSound(s, c, slot, rhs, body, st, fr, tick, fuel);
    case App(fun, arg) =>
      var lone := LoneCall(c.p, c.known, fun, arg);
      FirstStep(s, c, lone.value, 1, arg, fr, tick, fuel);
    case Case(scrut, alts, default) => CaseSound(s, c, scrut, alts, default, st, fr, tick, fuel);
    case Drop(slots, body) =>
      ClearEmpties(fr.locals, slots);
      var fr1 := fr.(locals := Clear(fr.locals, slots));
      FitsOn(c, st.ints, fr, Reads(e), st.ints, fr1, Reads(body), {});
      WalkSound(s, c, body, st, fr1, tick, fuel);
    case _ =>
  }

  lemma FitsFewer(c: Ctx, ints: set<nat>, fr: Frame, readable: set<nat>, fewer: set<nat>)
    requires Fits(c, ints, fr, readable) && fewer <= readable
    ensures Fits(c, ints, fr, fewer)
  {
  }

  lemma {:induction false} LetSound(s: Setting, c: Ctx, slot: nat, rhs: Expr, body: Expr, st: IntState, fr: Frame, tick: nat, fuel: nat)
    requires Sound(s) && InSetting(s, c) && Walk(c, Let(slot, rhs, body), st).0
    requires Scoped(Let(slot, rhs, body)) && Fits(c, st.ints, fr, Reads(Let(slot, rhs, body)))
    ensures var r := TEval(s, Let(slot, rhs, body), fr, tick, fuel); r.Done? ==> r.value.Int?
    decreases fuel, 1, Let(slot, rhs, body), 1
  {
    hide Sound, Fits, Leaves;
    var call := ChainSpec(c.p, c.known, slot, rhs, body);
    var r := TEval(s, rhs, fr, tick, fuel);
    if r.Done? && slot < |r.frame.locals| {
      TAgrees(s, rhs, fr, tick, fuel);
      EvalLeaves(s.p, s.w, rhs, fr, tick, fuel);
      if call.None? {
        PlainLetSound(s, c, slot, rhs, body, st, fr, tick, fuel);
      } else {
        var (callee, arity) := CalleeOf(c.p, c.known, rhs.fun.name).value;
        ChainCall(rhs.fun.name, arity, [rhs.arg], [slot], [], body);
        FirstStep(s, c, call.value, arity, rhs.arg, fr, tick, fuel);
        FitsOn(c, st.ints, fr, Reads(Let(slot, rhs, body)), st.ints - {slot}, r.frame, Reads(body), {});
        FitsBind(c, st.ints - {slot}, r.frame, Reads(body), slot, r.value);
        var fr1 := r.frame.(locals := r.frame.locals[slot := Some(r.value)]);
        var after := if call.value.rest.Some? then AfterCall(c, slot, call.value.rest.value.0, call.value, st) else st;
        ChainSound(s, c, call.value, arity, [rhs.arg], [slot], [], body, st.ints, after, fr1, r.tick, fuel);
      }
    }
  }

  lemma {:induction false} PlainLetSound(s: Setting, c: Ctx, slot: nat, rhs: Expr, body: Expr, st: IntState, fr: Frame, tick: nat, fuel: nat)
    requires Sound(s) && InSetting(s, c) && ChainSpec(c.p, c.known, slot, rhs, body).None? && Walk(c, Let(slot, rhs, body), st).0
    requires Scoped(Let(slot, rhs, body)) && Fits(c, st.ints, fr, Reads(Let(slot, rhs, body)))
    requires var r := TEval(s, rhs, fr, tick, fuel); r.Done? && slot < |r.frame.locals| && Leaves(fr, r.frame, Binds(rhs))
    ensures var r := TEval(s, Let(slot, rhs, body), fr, tick, fuel); r.Done? ==> r.value.Int?
    decreases fuel, 1, Let(slot, rhs, body), 0
  {
    hide Sound, Fits, Leaves;
    var r := TEval(s, rhs, fr, tick, fuel);
    var (isInt, st1) := Walk(c, rhs, st);
    var st2 := Rebind(slot, isInt, st1);
    if isInt {
      FitsFewer(c, st.ints, fr, Reads(Let(slot, rhs, body)), Reads(rhs));
      WalkSound(s, c, rhs, st, fr, tick, fuel);
    }
    WalkInts(c, rhs, st);
    FitsOn(c, st.ints, fr, Reads(Let(slot, rhs, body)), st2.ints - {slot}, r.frame, Reads(body), Binds(rhs));
    FitsBind(c, st2.ints, r.frame, Reads(body), slot, r.value);
    WalkSound(s, c, body, st2, r.frame.(locals := r.frame.locals[slot := Some(r.value)]), r.tick, fuel);
  }

  lemma {:induction false} CaseSound(s: Setting, c: Ctx, scrut: Atom, alts: seq<Alt>, default: Expr, st: IntState, fr: Frame, tick: nat, fuel: nat)
    requires Sound(s) && InSetting(s, c) && Walk(c, Case(scrut, alts, default), st).0
    requires Scoped(Case(scrut, alts, default)) && Fits(c, st.ints, fr, Reads(Case(scrut, alts, default)))
    ensures var r := TEval(s, Case(scrut, alts, default), fr, tick, fuel); r.Done? ==> r.value.Int?
    decreases fuel, 1, Case(scrut, alts, default), 1
  {
    hide Sound, Fits, Leaves;
    var got := ReadAtom(s.p, s.w, scrut, fr, tick);
    if got.Got? && s.w.force(got.value, tick).Some? {
      ReadLeaves(s.p, s.w, scrut, fr, tick);
      var v := s.w.force(got.value, tick).value;
      var k := Select(alts, v);
      var noted := if exists i :: 0 <= i < |alts| && alts[i].kind.OnInt? then Note(c.f, scrut, st) else st;
      if k == |alts| {
        FitsOn(c, st.ints, fr, Reads(Case(scrut, alts, default)), st.ints, got.frame, Reads(default), {});
        WalkSound(s, c, default, WalkAlts(c, alts, noted).1, got.frame, tick + 1, fuel);
      } else {
        AltRead(alts, k);
        FitsOn(c, st.ints, fr, Reads(Case(scrut, alts, default)), st.ints, got.frame, Reads(alts[k].body), {});
        var from := AltWalks(c, alts, noted, k);
        IntoFits(c, alts[k], v, from, got.frame);
        WalkSound(s, c, alts[k].body, InBranch(alts[k], from), Into(alts[k], v, got.frame), tick + 1, fuel);
      }
    }
  }

  lemma IntoFits(c: Ctx, alt: Alt, v: Val, st: IntState, fr: Frame)
    requires Matches(alt.kind, v) && Fits(c, st.ints, fr, Reads(alt.body))
    ensures Fits(c, InBranch(alt, st).ints, Into(alt, v, fr), Reads(alt.body))
  {
    if alt.kind.OnCon? {
      IntoLeaves(alt, v, fr);
      RebindAllRemoves(alt.base, |alt.binders|, st);
      FitsOn(c, st.ints, fr, Reads(alt.body), InBranch(alt, st).ints, Into(alt, v, fr), Reads(alt.body), Range(alt.base, |alt.binders|));
    }
  }

  lemma {:induction false} ChainCall(name: nat, arity: nat, args: seq<Atom>, used: seq<nat>, drops: seq<nat>, cur: Expr)
    requires |used| > 0 && ChainFrom(name, arity, args, used, drops, cur).Some?
    ensures var call := ChainFrom(name, arity, args, used, drops, cur).value; call.name == name && |call.args| == arity
    decreases cur
  {
    if |args| != arity {
      match cur
      case Drop(slots, body) => ChainCall(name, arity, args, used, drops + slots, body);
      case Let(next, rhs, body) => ChainCall(name, arity, args + [rhs.arg], used + [next], drops, body);
      case _ =>
    }
  }

  /** The value of a call with `k` of its arguments: a partial application, or its
      result. */
  ghost predicate CallVal(c: Ctx, call: Call, arity: nat, k: nat, v: Val) {
    if k < arity then PartialVal(c.p, c.known, call.name, call.callee, arity, k, v)
    else CallYieldsInt(c.known, c.intr, c.sigs, call) ==> v.Int?
  }

  /** A call's global applied to its first argument. */
  lemma FirstStep(s: Setting, c: Ctx, call: Call, arity: nat, arg: Atom, fr: Frame, tick: nat, fuel: nat)
    requires Sound(s) && InSetting(s, c) && CalleeOf(c.p, c.known, call.name) == Some((call.callee, arity)) && arity > 0
    ensures var r := TAppStep(s, Glob(call.name), arg, fr, tick, fuel); r.Done? ==> CallVal(c, call, arity, 1, r.value)
    decreases fuel, 0, Fail, 2
  {
    assert AllChains(s.p, s.known);
    hide AllChains, Sound, CallYieldsInt, PartialVal, CallVal, CalleeOf, TApply, GlobalValue;
    GlobalIsPartial(s.p, s.w, s.known, call.name, tick);
    var got := ReadAtom(s.p, s.w, arg, fr, tick);
    if got.Got? {
      OneMore(s, c, call, arity, 0, GlobalValue(s.p, s.w, call.name, tick).value, got.value, got.frame, tick, fuel);
    }
  }

  /** A partial application takes one more argument. */
  lemma OneMore(s: Setting, c: Ctx, call: Call, arity: nat, k: nat, v: Val, arg: Val, fr: Frame, tick: nat, fuel: nat)
    requires Sound(s) && InSetting(s, c) && k < arity && PartialVal(c.p, c.known, call.name, call.callee, arity, k, v)
    ensures var r := TApply(s, v, arg, fr, tick, fuel); r.Done? ==> CallVal(c, call, arity, k + 1, r.value)
    decreases fuel, 0, Fail, 1
  {
    hide *;
    if TApply(s, v, arg, fr, tick, fuel).Done? {
      if k + 1 < arity {
        OneShort(s, c, call, arity, k, v, arg, fr, tick, fuel);
      } else {
        OneLast(s, c, call, arity, v, arg, fr, tick, fuel);
      }
    }
  }

  lemma OneShort(s: Setting, c: Ctx, call: Call, arity: nat, k: nat, v: Val, arg: Val, fr: Frame, tick: nat, fuel: nat)
    requires Sound(s) && InSetting(s, c) && k + 1 < arity && PartialVal(c.p, c.known, call.name, call.callee, arity, k, v)
    requires TApply(s, v, arg, fr, tick, fuel).Done?
    ensures CallVal(c, call, arity, k + 1, TApply(s, v, arg, fr, tick, fuel).value)
  {
    assert AllChains(s.p, s.known) && c.p == s.p && c.known == s.known;
    hide Sound, AllChains, PartialVal, TApply, Apply, CallYieldsInt;
    TApplyAgrees(s, v, arg, fr, tick, fuel);
    MorePartial(s.p, s.w, s.known, {}, call.name, call.callee, arity, k, v, arg, fr, tick, fuel);
  }

  lemma OneLast(s: Setting, c: Ctx, call: Call, arity: nat, v: Val, arg: Val, fr: Frame, tick: nat, fuel: nat)
    requires Sound(s) && InSetting(s, c) && arity > 0 && PartialVal(c.p, c.known, call.name, call.callee, arity, arity - 1, v)
    requires TApply(s, v, arg, fr, tick, fuel).Done?
    ensures CallVal(c, call, arity, arity, TApply(s, v, arg, fr, tick, fuel).value)
    decreases fuel, 0, Fail, 1, 0
  {
    hide Sound, TApply;
    if CallYieldsInt(c.known, c.intr, c.sigs, call) {
      match call.callee
      case OfKnown(caf) => LastSound(s, caf, v, arg, fr, tick, fuel);
      case OfPrim => PrimLast(s, call.name, v, arg, fr, tick, fuel);
      case OfForeign =>
    }
  }

  /** The last operand of an intrinsic that yields no truth value. */
  lemma PrimLast(s: Setting, name: nat, v: Val, arg: Val, fr: Frame, tick: nat, fuel: nat)
    requires Sound(s) && v.Prim? && v.name == name && name in s.intr && !s.intr[name].boolean
    requires name in s.p.builtins && |v.args| + 1 >= s.p.builtins[name] && TApply(s, v, arg, fr, tick, fuel).Done?
    ensures TApply(s, v, arg, fr, tick, fuel).value.Int?
  {
    assert IntegerPrims(s.w, s.intr);
    hide Sound;
  }

  /** The activation a function is entered with fits where its walk starts. */
  lemma EntryFits(s: Setting, caf: nat, env: seq<Val>, arg: Val)
    requires caf in s.sigs && caf in s.known && Arity(s.known[caf]) > 0
    requires var code := s.known[caf].codes[Arity(s.known[caf]) - 1];
             code < |s.p.codes| && s.p.codes[code].nlocals > 0 && EntryOk(s, code, env, arg)
    ensures var f := s.known[caf];
            Fits(CtxOf(s, caf), Start(s.sigs[caf], Arity(f)).ints,
                 Enter(s.p, f.codes[Arity(f) - 1], env, arg), Reads(InnerBody(s.p, f)))
  {
  }

  function CtxOf(s: Setting, caf: nat): Ctx
    requires caf in s.sigs && caf in s.known
  {
    Ctx(s.p, s.known, s.intr, s.sigs, s.known[caf], s.sigs[caf])
  }

  /** The innermost body of a function said to return integers. */
  lemma InnerWalks(s: Setting, caf: nat)
    requires Sound(s) && caf in s.sigs && caf in s.known && s.sigs[caf].intRet
    ensures var f := s.known[caf];
            && Arity(f) > 0 && f.codes[Arity(f) - 1] < |s.p.codes| && InnerBody(s.p, f) == s.p.codes[f.codes[Arity(f) - 1]].body
            && Scoped(InnerBody(s.p, f)) && Walk(CtxOf(s, caf), InnerBody(s.p, f), Start(s.sigs[caf], Arity(f))).0
  {
    hide Walk, Start, Scoped, IntegerPrims;
    assert IsChain(s.p, caf, s.known[caf]);
    assert BodyWalk(s.p, s.known, s.intr, s.sigs, caf).0;
  }

  /** The last argument of a function said to return integers. */
  lemma LastSound(s: Setting, caf: nat, v: Val, arg: Val, fr: Frame, tick: nat, fuel: nat)
    requires Sound(s) && caf in s.sigs && caf in s.known && s.sigs[caf].intRet
    requires v.Clo? && Arity(s.known[caf]) > 0 && v.code == s.known[caf].codes[Arity(s.known[caf]) - 1]
    ensures var r := TApply(s, v, arg, fr, tick, fuel); r.Done? ==> r.value.Int?
    decreases fuel, 0, Fail, 0
  {
    hide Sound, Walk, Fits, EntryOk, Start, InnerBody;
    if TApply(s, v, arg, fr, tick, fuel).Done? {
      var f := s.known[caf];
      InnerWalks(s, caf);
      EntryFits(s, caf, v.env, arg);
      WalkSound(s, CtxOf(s, caf), InnerBody(s.p, f), Start(s.sigs[caf], Arity(f)), Enter(s.p, v.code, v.env, arg), tick, fuel - 1);
    }
  }

  /** One application of a chain, from the slot its partial application is kept in. */
  lemma ChainStep(s: Setting, c: Ctx, call: Call, arity: nat, k: nat, partial: nat, arg: Atom, fr: Frame, tick: nat, fuel: nat)
    requires Sound(s) && InSetting(s, c) && k < arity
    requires partial < |fr.locals| && fr.locals[partial].Some? ==> CallVal(c, call, arity, k, fr.locals[partial].value)
    ensures var r := TAppStep(s, Move(partial), arg, fr, tick, fuel);
            r.Done? ==> CallVal(c, call, arity, k + 1, r.value) && Leaves(fr, r.frame, {}) && partial < |fr.locals| && r.frame.locals[partial].None?
    decreases fuel, 0, Fail, 2
  {
    hide Sound, CallYieldsInt, PartialVal;
    var got := ReadAtom(s.p, s.w, Move(partial), fr, tick);
    if got.Got? {
      var got2 := ReadAtom(s.p, s.w, arg, got.frame, tick);
      ReadLeaves(s.p, s.w, arg, got.frame, tick);
      if got2.Got? {
        OneMore(s, c, call, arity, k, got.value, got2.value, got2.frame, tick, fuel);
        if TApply(s, got.value, got2.value, got2.frame, tick, fuel).Done? {
          TApplyAgrees(s, got.value, got2.value, got2.frame, tick, fuel);
          ApplyKeepsFrame(s.p, s.w, got.value, got2.value, got2.frame, tick, fuel);
        }
      }
    }
  }

  /** The rest of a chain of applications, and what follows it. */
  lemma {:induction false} ChainSound(s: Setting, c: Ctx, call: Call, arity: nat, args: seq<Atom>, used: seq<nat>, drops: seq<nat>, cur: Expr,
                                      ints: set<nat>, after: IntState, fr: Frame, tick: nat, fuel: nat)
    requires Sound(s) && InSetting(s, c) && Scoped(cur) && |used| > 0 && |args| <= arity
    requires Called(call.callee, ChainFrom(call.name, arity, args, used, drops, cur)) == Some(call)
    requires var partial := used[|used| - 1];
             partial < |fr.locals| && fr.locals[partial].Some? ==> CallVal(c, call, arity, |args|, fr.locals[partial].value)
    requires Fits(c, ints - {used[|used| - 1]}, fr, Reads(cur))
    requires call.rest.Some? ==>
               && Walk(c, call.rest.value.1, after).0 && after.ints <= ints + {call.rest.value.0}
               && (call.rest.value.0 in after.ints ==> CallYieldsInt(c.known, c.intr, c.sigs, call))
    requires call.rest.None? ==> CallYieldsInt(c.known, c.intr, c.sigs, call)
    ensures var r := TEval(s, cur, fr, tick, fuel); r.Done? ==> r.value.Int?
    decreases fuel, 1, cur, 3
  {
    hide Sound, CallYieldsInt, PartialVal, TAppStep, Leaves, Walk;
    var partial := used[|used| - 1];
    if |args| == arity {
      assert Fits(c, after.ints, fr, Reads(cur));
      WalkSound(s, c, cur, after, fr, tick, fuel);
    } else {
      hide Fits;
      match cur
      case Drop(slots, body) =>
        ClearEmpties(fr.locals, slots);
        var fr1 := fr.(locals := Clear(fr.locals, slots));
        ClearLeaves(fr, slots);
        FitsOn(c, ints - {partial}, fr, Reads(cur), ints - {partial}, fr1, Reads(body), {});
        ChainSound(s, c, call, arity, args, used, drops + slots, body, ints, after, fr1, tick, fuel);
      case App(_, arg) => ChainStep(s, c, call, arity, |args|, partial, arg, fr, tick, fuel);
      case Let(next, rhs, body) =>
        ChainStep(s, c, call, arity, |args|, partial, rhs.arg, fr, tick, fuel);
        var r := TEval(s, rhs, fr, tick, fuel);
        if r.Done? && next < |r.frame.locals| {
          FitsOn(c, ints - {partial}, fr, Reads(cur), ints - {partial}, r.frame, Reads(body), {});
          EmptiedFits(c, ints, partial, r.frame, Reads(body));
          FitsFewerInts(c, ints, ints - {next}, r.frame, Reads(body));
          FitsBind(c, ints - {next}, r.frame, Reads(body), next, r.value);
          var fr1 := r.frame.(locals := r.frame.locals[next := Some(r.value)]);
          ChainSound(s, c, call, arity, args + [rhs.arg], used + [next], drops, body, ints, after, fr1, r.tick, fuel);
        }
    }
  }

  lemma ClearLeaves(fr: Frame, slots: seq<nat>)
    ensures Leaves(fr, fr.(locals := Clear(fr.locals, slots)), {})
  {
    ClearEmpties(fr.locals, slots);
  }

  lemma EmptiedFits(c: Ctx, ints: set<nat>, slot: nat, fr: Frame, readable: set<nat>)
    requires Fits(c, ints - {slot}, fr, readable) && (slot < |fr.locals| ==> fr.locals[slot].None?)
    ensures Fits(c, ints, fr, readable)
  {
  }

  lemma FitsFewerInts(c: Ctx, ints: set<nat>, fewer: set<nat>, fr: Frame, readable: set<nat>)
    requires Fits(c, ints, fr, readable) && fewer <= ints
    ensures Fits(c, fewer, fr, readable)
  {
  }

  /** A function said to return integers, applied to the last of its arguments with
      integers where its signature says so, returns an integer if it returns. */
  lemma IntRetReturnsInt(s: Setting, caf: nat, env: seq<Val>, arg: Val, fr: Frame, tick: nat, fuel: nat)
    requires Sound(s) && caf in s.sigs && s.sigs[caf].intRet
    requires var f := s.known[caf]; TApply(s, Clo(f.codes[Arity(f) - 1], env), arg, fr, tick, fuel).Done?
    ensures var f := s.known[caf];
            var r := Apply(s.p, s.w, Clo(f.codes[Arity(f) - 1], env), arg, fr, tick, fuel); r.Done? && r.value.Int?
  {
    var f := s.known[caf];
    LastSound(s, caf, Clo(f.codes[Arity(f) - 1], env), arg, fr, tick, fuel);
    TApplyAgrees(s, Clo(f.codes[Arity(f) - 1], env), arg, fr, tick, fuel);
  }
}
