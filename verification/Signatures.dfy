/** Unboxed signatures: which arguments of a direct function are integers because some
    use of them says so, and which functions return nothing but integers. */
module Signatures {
  import opened Common
  import opened Ir
  import opened Currying
  import opened Direct

  datatype Opnd = IntOpnd | BoolOpnd | BoxedOpnd

  /** A built-in computed inline: its operands, and whether it yields a truth value. */
  datatype Intrinsic = Intrinsic(operands: seq<Opnd>, boolean: bool)

  type Intrinsics = map<nat, Intrinsic>

  datatype Sig = Sig(intParams: seq<bool>, intRet: bool)

  type Sigs = map<nat, Sig>

  /** What is known at a point of a body: whether slot 0 still holds the last argument,
      which slots hold integers, and which arguments have been seen used as integers. */
  datatype IntState = IntState(p0: bool, ints: set<nat>, evidence: seq<bool>)

  // ---- the walk -----------------------------------------------------------

  /** Which argument an atom reads. */
  function ParamOf(f: KnownFn, a: Atom, st: IntState): Option<nat> {
    match a
    case Env(j) => if j < |f.env| then Some(f.env[j]) else None
    case MoveEnv(j) => if j < |f.env| then Some(f.env[j]) else None
    case Local(i) => if i == 0 && st.p0 && Arity(f) > 0 then Some(Arity(f) - 1) else None
    case Move(i) => if i == 0 && st.p0 && Arity(f) > 0 then Some(Arity(f) - 1) else None
    case _ => None
  }

  predicate IsInt(f: KnownFn, sig: Sig, a: Atom, st: IntState) {
    match a
    case LitI(_) => true
    case Env(j) => j < |f.env| && f.env[j] < |sig.intParams| && sig.intParams[f.env[j]]
    case MoveEnv(j) => j < |f.env| && f.env[j] < |sig.intParams| && sig.intParams[f.env[j]]
    case Local(s) => s in st.ints
    case Move(s) => s in st.ints
    case _ => false
  }

  /** Note that an atom is used as an integer. */
  function Note(f: KnownFn, a: Atom, st: IntState): (r: IntState)
    ensures r.p0 == st.p0 && r.ints == st.ints && |r.evidence| == |st.evidence|
  {
    match ParamOf(f, a, st)
    case Some(k) => if k < |st.evidence| then st.(evidence := st.evidence[k := true]) else st
    case None => st
  }

  /** Note the uses of the operands that `wanted` says are integers. */
  function NoteAll(f: KnownFn, args: seq<Atom>, wanted: seq<bool>, st: IntState): (r: IntState)
    ensures r.p0 == st.p0 && r.ints == st.ints && |r.evidence| == |st.evidence|
    decreases |args|
  {
    if |args| == 0 || |wanted| == 0 then st
    else NoteAll(f, args[1..], wanted[1..], if wanted[0] then Note(f, args[0], st) else st)
  }

  function WantInts(ops: seq<Opnd>): (r: seq<bool>)
    ensures |r| == |ops|
  {
    seq(|ops|, i requires 0 <= i < |ops| => ops[i].IntOpnd?)
  }

  /** What a call's arguments must be. */
  function Wanted(known: Known, intr: Intrinsics, sigs: Sigs, c: Call): seq<bool> {
    match c.callee
    case OfPrim => if c.name in intr && |intr[c.name].operands| == |c.args| then WantInts(intr[c.name].operands) else []
    case OfForeign => []
    case OfKnown(caf) => if caf in sigs then sigs[caf].intParams else []
  }

  /** Whether a call yields an integer. */
  predicate CallYieldsInt(known: Known, intr: Intrinsics, sigs: Sigs, c: Call) {
    match c.callee
    case OfPrim => c.name in intr && |intr[c.name].operands| == |c.args| && !intr[c.name].boolean
    case OfForeign => false
    case OfKnown(caf) => caf in sigs && sigs[caf].intRet
  }

  function Rebind(s: nat, isInt: bool, st: IntState): IntState {
    IntState(st.p0 && s != 0, if isInt then st.ints + {s} else st.ints - {s}, st.evidence)
  }

  function RebindAll(base: nat, n: nat, st: IntState): (r: IntState)
    ensures r.evidence == st.evidence
    decreases n
  {
    if n == 0 then st else Rebind(base + n - 1, false, RebindAll(base, n - 1, st))
  }

  datatype Ctx = Ctx(p: Program, known: Known, intr: Intrinsics, sigs: Sigs, f: KnownFn, sig: Sig)

  /** The state an alternative starts in. */
  function InBranch(alt: Alt, st: IntState): (r: IntState)
    ensures r.evidence == st.evidence
  {
    if alt.kind.OnCon? then RebindAll(alt.base, |alt.binders|, st) else st
  }

  /** Walk the alternatives, each from the state before the case; only the evidence is
      carried over. */
  function WalkAlts(c: Ctx, alts: seq<Alt>, st: IntState): (r: (bool, IntState))
    ensures r.1.p0 == st.p0 && r.1.ints == st.ints
    decreases alts
  {
    if |alts| == 0 then (true, st)
    else
      var (isInt, after) := Walk(c, alts[0].body, InBranch(alts[0], st));
      var (rest, last) := WalkAlts(c, alts[1..], st.(evidence := after.evidence));
      (isInt && rest, last)
  }

  /** Walk a body: the integer uses of its arguments, and whether every value it returns
      is an integer. */
  function Walk(c: Ctx, e: Expr, st: IntState): (r: (bool, IntState))
    decreases e
  {
    match e
    case Let(slot, rhs, body) =>
      (match ChainSpec(c.p, c.known, slot, rhs, body)
       case Some(call) =>
         var isInt := CallYieldsInt(c.known, c.intr, c.sigs, call);
         var noted := NoteAll(c.f, call.args, Wanted(c.known, c.intr, c.sigs, call), st);
         (match call.rest
          case Some((to, after)) => Walk(c, after, Rebind(to, isInt, Rebind(slot, false, noted)))
          case None => (isInt, noted))
       case None =>
         var (isInt, st1) := Walk(c, rhs, st);
         Walk(c, body, Rebind(slot, isInt, st1)))
    case App(fun, arg) =>
      (match LoneCall(c.p, c.known, fun, arg)
       case Some(call) =>
         (CallYieldsInt(c.known, c.intr, c.sigs, call), NoteAll(c.f, call.args, Wanted(c.known, c.intr, c.sigs, call), st))
       case None => (false, st))
    case Case(scrut, alts, default) =>
      var noted := if exists i :: 0 <= i < |alts| && alts[i].kind.OnInt? then Note(c.f, scrut, st) else st;
      var (some, st1) := WalkAlts(c, alts, noted);
      var (last, st2) := Walk(c, default, st1);
      (some && last, st.(evidence := st2.evidence))
    case Drop(_, body) => Walk(c, body, st)
    case Ret(a) => (IsInt(c.f, c.sig, a, st), st)
    case Fail => (true, st)
    case _ => (false, st)
  }

  lemma {:induction false} WalkEvidenceLength(c: Ctx, e: Expr, st: IntState)
    ensures |Walk(c, e, st).1.evidence| == |st.evidence|
    decreases e, 1
  {
    match e
    case Let(slot, rhs, body) =>
      var call := ChainSpec(c.p, c.known, slot, rhs, body);
      if call.None? {
        WalkEvidenceLength(c, rhs, st);
        WalkEvidenceLength(c, body, Rebind(slot, Walk(c, rhs, st).0, Walk(c, rhs, st).1));
      } else if call.value.rest.Some? {
        var isInt := CallYieldsInt(c.known, c.intr, c.sigs, call.value);
        var noted := NoteAll(c.f, call.value.args, Wanted(c.known, c.intr, c.sigs, call.value), st);
        var (to, after) := call.value.rest.value;
        WalkEvidenceLength(c, after, Rebind(to, isInt, Rebind(slot, false, noted)));
      }
    case Case(scrut, alts, default) =>
      var noted := if exists i :: 0 <= i < |alts| && alts[i].kind.OnInt? then Note(c.f, scrut, st) else st;
      WalkAltsEvidenceLength(c, alts, noted);
      WalkEvidenceLength(c, default, WalkAlts(c, alts, noted).1);
    case Drop(_, body) => WalkEvidenceLength(c, body, st);
    case _ =>
  }

  lemma {:induction false} WalkAltsEvidenceLength(c: Ctx, alts: seq<Alt>, st: IntState)
    ensures |WalkAlts(c, alts, st).1.evidence| == |st.evidence|
    decreases alts, 0
  {
    if |alts| > 0 {
      WalkEvidenceLength(c, alts[0].body, InBranch(alts[0], st));
      WalkAltsEvidenceLength(c, alts[1..], st.(evidence := Walk(c, alts[0].body, InBranch(alts[0], st)).1.evidence));
    }
  }

  // ---- the walk is monotone -----------------------------------------------

  ghost predicate Below(a: seq<bool>, b: seq<bool>) {
    |a| == |b| && forall i :: 0 <= i < |a| && a[i] ==> b[i]
  }

  /** The same functions, with at least the integer arguments. */
  ghost predicate ParamsBelow(a: Sigs, b: Sigs) {
    a.Keys == b.Keys && forall caf :: caf in a ==> Below(a[caf].intParams, b[caf].intParams)
  }

  lemma NoteMore(f: KnownFn, a: Atom, st1: IntState, st2: IntState)
    requires st1.p0 == st2.p0 && Below(st1.evidence, st2.evidence)
    ensures Below(Note(f, a, st1).evidence, Note(f, a, st2).evidence)
  {
  }

  lemma {:induction false} NoteAllMore(f: KnownFn, args: seq<Atom>, w1: seq<bool>, w2: seq<bool>, st1: IntState, st2: IntState)
    requires st1.p0 == st2.p0 && Below(st1.evidence, st2.evidence) && Below(w1, w2)
    ensures Below(NoteAll(f, args, w1, st1).evidence, NoteAll(f, args, w2, st2).evidence)
    decreases |args|
  {
    if |args| > 0 && |w1| > 0 {
      NoteMore(f, args[0], st1, st2);
      var n1 := if w1[0] then Note(f, args[0], st1) else st1;
      var n2 := if w2[0] then Note(f, args[0], st2) else st2;
      assert Below(n1.evidence, n2.evidence) by {
        NoteAdds(f, args[0], st2);
      }
      NoteAllMore(f, args[1..], w1[1..], w2[1..], n1, n2);
    }
  }

  lemma NoteAdds(f: KnownFn, a: Atom, st: IntState)
    ensures Below(st.evidence, Note(f, a, st).evidence)
  {
  }

  /** Contexts that walk the same body under the same functions. */
  ghost predicate SameCode(c1: Ctx, c2: Ctx) {
    c1.p == c2.p && c1.known == c2.known && c1.intr == c2.intr && c1.f == c2.f
  }

  /** More integer arguments are never less evidence; and what functions return, or
      which slots hold integers, plays no part. */
  lemma {:induction false} EvidenceGrows(c1: Ctx, c2: Ctx, e: Expr, st1: IntState, st2: IntState)
    requires SameCode(c1, c2) && ParamsBelow(c1.sigs, c2.sigs)
    requires st1.p0 == st2.p0 && Below(st1.evidence, st2.evidence)
    ensures var r1, r2 := Walk(c1, e, st1).1, Walk(c2, e, st2).1;
            r1.p0 == r2.p0 && Below(r1.evidence, r2.evidence)
    decreases e, 1
  {
    hide ChainSpec, ParamsBelow, NoteAll, Wanted, LoneCall, RebindAll, Below;
    match e
    case Let(slot, rhs, body) =>
      var call := ChainSpec(c1.p, c1.known, slot, rhs, body);
      if call.None? {
        EvidenceGrows(c1, c2, rhs, st1, st2);
        var (i1, r1) := Walk(c1, rhs, st1);
        var (i2, r2) := Walk(c2, rhs, st2);
        EvidenceGrows(c1, c2, body, Rebind(slot, i1, r1), Rebind(slot, i2, r2));
      } else {
        CallGrows(c1, c2, call.value, st1, st2);
        if call.value.rest.Some? {
          var (to, after) := call.value.rest.value;
          EvidenceGrows(c1, c2, after, AfterCall(c1, slot, to, call.value, st1), AfterCall(c2, slot, to, call.value, st2));
        }
      }
    case App(fun, arg) =>
      var call := LoneCall(c1.p, c1.known, fun, arg);
      if call.Some? {
        CallGrows(c1, c2, call.value, st1, st2);
      }
    case Case(scrut, alts, default) =>
      var some := exists i :: 0 <= i < |alts| && alts[i].kind.OnInt?;
      NoteMore(c1.f, scrut, st1, st2);
      var n1, n2 := if some then Note(c1.f, scrut, st1) else st1, if some then Note(c2.f, scrut, st2) else st2;
      AltsEvidenceGrows(c1, c2, alts, n1, n2);
      EvidenceGrows(c1, c2, default, WalkAlts(c1, alts, n1).1, WalkAlts(c2, alts, n2).1);
    case Drop(_, body) => EvidenceGrows(c1, c2, body, st1, st2);
    case _ =>
  }

  /** The state after a chain of applications whose result goes to `to`. */
  function AfterCall(c: Ctx, slot: nat, to: nat, call: Call, st: IntState): IntState {
    Rebind(to, CallYieldsInt(c.known, c.intr, c.sigs, call),
           Rebind(slot, false, NoteAll(c.f, call.args, Wanted(c.known, c.intr, c.sigs, call), st)))
  }

  lemma CallGrows(c1: Ctx, c2: Ctx, call: Call, st1: IntState, st2: IntState)
    requires SameCode(c1, c2) && ParamsBelow(c1.sigs, c2.sigs)
    requires st1.p0 == st2.p0 && Below(st1.evidence, st2.evidence)
    ensures Below(NoteAll(c1.f, call.args, Wanted(c1.known, c1.intr, c1.sigs, call), st1).evidence,
                  NoteAll(c2.f, call.args, Wanted(c2.known, c2.intr, c2.sigs, call), st2).evidence)
  {
    var w1, w2 := Wanted(c1.known, c1.intr, c1.sigs, call), Wanted(c2.known, c2.intr, c2.sigs, call);
    assert Below(w1, w2);
    NoteAllMore(c1.f, call.args, w1, w2, st1, st2);
  }

  lemma {:induction false} AltsEvidenceGrows(c1: Ctx, c2: Ctx, alts: seq<Alt>, st1: IntState, st2: IntState)
    requires SameCode(c1, c2) && ParamsBelow(c1.sigs, c2.sigs)
    requires st1.p0 == st2.p0 && Below(st1.evidence, st2.evidence)
    ensures Below(WalkAlts(c1, alts, st1).1.evidence, WalkAlts(c2, alts, st2).1.evidence)
    decreases alts, 0
  {
    if |alts| > 0 {
      var b1, b2 := InBranch(alts[0], st1), InBranch(alts[0], st2);
      BranchP0(alts[0], st1, st2);
      EvidenceGrows(c1, c2, alts[0].body, b1, b2);
      AltsEvidenceGrows(c1, c2, alts[1..], st1.(evidence := Walk(c1, alts[0].body, b1).1.evidence),
                        st2.(evidence := Walk(c2, alts[0].body, b2).1.evidence));
    }
  }

  lemma BranchP0(alt: Alt, st1: IntState, st2: IntState)
    requires st1.p0 == st2.p0
    ensures InBranch(alt, st1).p0 == InBranch(alt, st2).p0
  {
    if alt.kind.OnCon? {
      RebindAllP0(alt.base, |alt.binders|, st1, st2);
    }
  }

  lemma {:induction false} RebindAllP0(base: nat, n: nat, st1: IntState, st2: IntState)
    requires st1.p0 == st2.p0
    ensures RebindAll(base, n, st1).p0 == RebindAll(base, n, st2).p0
  {
    if n > 0 {
      RebindAllP0(base, n - 1, st1, st2);
    }
  }

  /** The same integer arguments, and no more functions returning integers. */
  ghost predicate RetsBelow(a: Sigs, b: Sigs) {
    a.Keys == b.Keys && forall caf :: caf in a ==> a[caf].intParams == b[caf].intParams && (a[caf].intRet ==> b[caf].intRet)
  }

  /** More functions returning integers, and more slots holding them, never make a body
      return less. */
  lemma {:induction false} ReturnsGrow(c1: Ctx, c2: Ctx, e: Expr, st1: IntState, st2: IntState)
    requires SameCode(c1, c2) && RetsBelow(c1.sigs, c2.sigs) && c1.sig.intParams == c2.sig.intParams
    requires st1.ints <= st2.ints
    ensures var r1, r2 := Walk(c1, e, st1), Walk(c2, e, st2);
            (r1.0 ==> r2.0) && r1.1.ints <= r2.1.ints
    decreases e, 2
  {
    hide ChainSpec, RetsBelow, NoteAll, Wanted, LoneCall, RebindAll;
    match e
    case App(fun, arg) => AppReturnsGrow(c1, c2, fun, arg, st1, st2);
    case Let(slot, rhs, body) => LetReturnsGrow(c1, c2, slot, rhs, body, st1, st2);
    case Case(scrut, alts, default) =>
      var some := exists i :: 0 <= i < |alts| && alts[i].kind.OnInt?;
      var n1, n2 := if some then Note(c1.f, scrut, st1) else st1, if some then Note(c2.f, scrut, st2) else st2;
      AltsReturnsGrow(c1, c2, alts, n1, n2);
      ReturnsGrow(c1, c2, default, WalkAlts(c1, alts, n1).1, WalkAlts(c2, alts, n2).1);
    case Drop(_, body) => ReturnsGrow(c1, c2, body, st1, st2);
    case _ =>
  }

  lemma AppReturnsGrow(c1: Ctx, c2: Ctx, fun: Atom, arg: Atom, st1: IntState, st2: IntState)
    requires SameCode(c1, c2) && RetsBelow(c1.sigs, c2.sigs) && c1.sig.intParams == c2.sig.intParams
    requires st1.ints <= st2.ints
    ensures var r1, r2 := Walk(c1, App(fun, arg), st1), Walk(c2, App(fun, arg), st2);
            (r1.0 ==> r2.0) && r1.1.ints <= r2.1.ints
  {
    WalkApp(c1, fun, arg, st1);
    WalkApp(c2, fun, arg, st2);
    hide *;
    SameParts(c1, c2);
    if LoneCall(c1.p, c1.known, fun, arg).Some? {
      YieldsGrow(c1, c2, LoneCall(c1.p, c1.known, fun, arg).value);
    }
  }

  lemma SameParts(c1: Ctx, c2: Ctx)
    requires SameCode(c1, c2)
    ensures c1.p == c2.p && c1.known == c2.known
  {
  }

  lemma YieldsGrow(c1: Ctx, c2: Ctx, call: Call)
    requires SameCode(c1, c2) && RetsBelow(c1.sigs, c2.sigs)
    ensures CallYieldsInt(c1.known, c1.intr, c1.sigs, call) ==> CallYieldsInt(c2.known, c2.intr, c2.sigs, call)
  {
  }

  lemma WalkApp(c: Ctx, fun: Atom, arg: Atom, st: IntState)
    ensures var call, r := LoneCall(c.p, c.known, fun, arg), Walk(c, App(fun, arg), st);
            && (r.0 <==> call.Some? && CallYieldsInt(c.known, c.intr, c.sigs, call.value)) && r.1.ints == st.ints
  {
    hide Wanted, LoneCall, CallYieldsInt;
  }

  lemma {:induction false} LetReturnsGrow(c1: Ctx, c2: Ctx, slot: nat, rhs: Expr, body: Expr, st1: IntState, st2: IntState)
    requires SameCode(c1, c2) && RetsBelow(c1.sigs, c2.sigs) && c1.sig.intParams == c2.sig.intParams
    requires st1.ints <= st2.ints
    ensures var r1, r2 := Walk(c1, Let(slot, rhs, body), st1), Walk(c2, Let(slot, rhs, body), st2);
            (r1.0 ==> r2.0) && r1.1.ints <= r2.1.ints
    decreases Let(slot, rhs, body), 1
  {
    hide ChainSpec, NoteAll, Wanted, LoneCall;
    var call := ChainSpec(c1.p, c1.known, slot, rhs, body);
    if call.None? {
      ReturnsGrow(c1, c2, rhs, st1, st2);
      var (i1, r1) := Walk(c1, rhs, st1);
      var (i2, r2) := Walk(c2, rhs, st2);
      ReturnsGrow(c1, c2, body, Rebind(slot, i1, r1), Rebind(slot, i2, r2));
    } else if call.value.rest.Some? {
      var (to, after) := call.value.rest.value;
      ReturnsGrow(c1, c2, after, AfterCall(c1, slot, to, call.value, st1), AfterCall(c2, slot, to, call.value, st2));
    }
  }

  lemma {:induction false} AltsReturnsGrow(c1: Ctx, c2: Ctx, alts: seq<Alt>, st1: IntState, st2: IntState)
    requires SameCode(c1, c2) && RetsBelow(c1.sigs, c2.sigs) && c1.sig.intParams == c2.sig.intParams
    requires st1.ints <= st2.ints
    ensures WalkAlts(c1, alts, st1).0 ==> WalkAlts(c2, alts, st2).0
    decreases alts, 0
  {
    if |alts| > 0 {
      var b1, b2 := InBranch(alts[0], st1), InBranch(alts[0], st2);
      BranchInts(alts[0], st1, st2);
      ReturnsGrow(c1, c2, alts[0].body, b1, b2);
      AltsReturnsGrow(c1, c2, alts[1..], st1.(evidence := Walk(c1, alts[0].body, b1).1.evidence),
                      st2.(evidence := Walk(c2, alts[0].body, b2).1.evidence));
    }
  }

  lemma BranchInts(alt: Alt, st1: IntState, st2: IntState)
    requires st1.ints <= st2.ints
    ensures InBranch(alt, st1).ints <= InBranch(alt, st2).ints
  {
    if alt.kind.OnCon? {
      RebindAllInts(alt.base, |alt.binders|, st1, st2);
    }
  }

  lemma {:induction false} RebindAllInts(base: nat, n: nat, st1: IntState, st2: IntState)
    requires st1.ints <= st2.ints
    ensures RebindAll(base, n, st1).ints <= RebindAll(base, n, st2).ints
  {
    if n > 0 {
      RebindAllInts(base, n - 1, st1, st2);
    }
  }

  // ---- the two fixpoints --------------------------------------------------

  /** Where a function's walk starts: slot 0 holds the last argument. */
  function Start(sig: Sig, n: nat): IntState {
    IntState(true, if 0 < n <= |sig.intParams| && sig.intParams[n - 1] then {0} else {}, seq(n, i => false))
  }

  /** What a direct function's body says, under given signatures. */
  function BodyWalk(p: Program, known: Known, intr: Intrinsics, sigs: Sigs, caf: nat): (bool, IntState)
    requires caf in sigs && caf in known
  {
    var f, sig := known[caf], sigs[caf];
    var n := Arity(f);
    var start := Start(sig, n);
    Walk(Ctx(p, known, intr, sigs, f, sig), InnerBody(p, f), start)
  }

  /** A signature has a flag for every argument. */
  ghost predicate WellFormed(known: Known, sigs: Sigs) {
    forall caf :: caf in sigs ==> caf in known && |sigs[caf].intParams| == Arity(known[caf])
  }

  /** Every use as an integer is accounted for. */
  ghost predicate ParamsClosed(p: Program, known: Known, intr: Intrinsics, sigs: Sigs) {
    WellFormed(known, sigs) && forall caf :: caf in sigs ==> Below(BodyWalk(p, known, intr, sigs, caf).1.evidence, sigs[caf].intParams)
  }

  /** Every function said to return integers does, if the others do. */
  ghost predicate RetsHold(p: Program, known: Known, intr: Intrinsics, sigs: Sigs) {
    WellFormed(known, sigs) && forall caf :: caf in sigs && sigs[caf].intRet ==> BodyWalk(p, known, intr, sigs, caf).0
  }

  function Either(a: seq<bool>, b: seq<bool>): (r: seq<bool>)
    ensures |r| == |a|
  {
    seq(|a|, i requires 0 <= i < |a| => a[i] || (i < |b| && b[i]))
  }

  function Improved(p: Program, known: Known, intr: Intrinsics, sigs: Sigs, caf: nat, results: bool): Sig
    requires caf in sigs && caf in known
  {
    var (ret, st) := BodyWalk(p, known, intr, sigs, caf);
    if results then sigs[caf].(intRet := sigs[caf].intRet && ret)
    else sigs[caf].(intParams := Either(sigs[caf].intParams, st.evidence))
  }

  /** One round over every direct function. */
  method Round(p: Program, known: Known, intr: Intrinsics, sigs: Sigs, results: bool) returns (next: Sigs)
    requires WellFormed(known, sigs)
    ensures next.Keys == sigs.Keys && forall caf :: caf in sigs ==> next[caf] == Improved(p, known, intr, sigs, caf, results)
  {
    next := sigs;
    var left := sigs.Keys;
    while left != {}
      invariant next.Keys == sigs.Keys && left <= sigs.Keys
      invariant forall caf :: caf in sigs ==> next[caf] == if caf in left then sigs[caf] else Improved(p, known, intr, sigs, caf, results)
      decreases |left|
    {
      var caf :| caf in left;
      next := next[caf := Improved(p, known, intr, sigs, caf, results)];
      left := left - {caf};
    }
  }

  ghost function Unset(sigs: Sigs): set<(nat, nat)> {
    set caf, i | caf in sigs && 0 <= i < |sigs[caf].intParams| && !sigs[caf].intParams[i] :: (caf, i)
  }

  ghost function Returning(sigs: Sigs): set<nat> {
    set caf | caf in sigs && sigs[caf].intRet
  }

  /** A round that changes a flag sets one that was not set. */
  lemma RoundSets(p: Program, known: Known, intr: Intrinsics, sigs: Sigs, next: Sigs)
    requires WellFormed(known, sigs) && next.Keys == sigs.Keys && next != sigs
    requires forall caf :: caf in sigs ==> next[caf] == Improved(p, known, intr, sigs, caf, false)
    ensures Unset(next) < Unset(sigs) && WellFormed(known, next)
    ensures forall caf :: caf in sigs ==> next[caf].intRet == sigs[caf].intRet
  {
    hide BodyWalk;
    assert Unset(next) <= Unset(sigs);
    var caf :| caf in sigs && next[caf] != sigs[caf];
    assert next[caf].intParams != sigs[caf].intParams;
    var i :| 0 <= i < |sigs[caf].intParams| && next[caf].intParams[i] != sigs[caf].intParams[i];
    assert (caf, i) in Unset(sigs) && (caf, i) !in Unset(next);
  }

  /** Below every closed assignment, a round stays below it. */
  lemma RoundStaysBelow(p: Program, known: Known, intr: Intrinsics, sigs: Sigs, next: Sigs, other: Sigs)
    requires WellFormed(known, sigs) && next.Keys == sigs.Keys
    requires forall caf :: caf in sigs ==> next[caf] == Improved(p, known, intr, sigs, caf, false)
    requires ParamsClosed(p, known, intr, other) && ParamsBelow(sigs, other)
    ensures ParamsBelow(next, other)
  {
    forall caf | caf in next
      ensures Below(next[caf].intParams, other[caf].intParams)
    {
      var f := known[caf];
      var c1, c2 := Ctx(p, known, intr, sigs, f, sigs[caf]), Ctx(p, known, intr, other, f, other[caf]);
      var n := Arity(f);
      var st1 := Start(sigs[caf], n);
      var st2 := Start(other[caf], n);
      EvidenceGrows(c1, c2, InnerBody(p, f), st1, st2);
    }
  }

  /** When a round changes nothing, every use is accounted for. */
  lemma StableIsClosed(p: Program, known: Known, intr: Intrinsics, sigs: Sigs)
    requires WellFormed(known, sigs) && forall caf :: caf in sigs ==> sigs[caf] == Improved(p, known, intr, sigs, caf, false)
    ensures ParamsClosed(p, known, intr, sigs)
  {
    forall caf | caf in sigs
      ensures Below(BodyWalk(p, known, intr, sigs, caf).1.evidence, sigs[caf].intParams)
    {
      var f, n := known[caf], Arity(known[caf]);
      WalkEvidenceLength(Ctx(p, known, intr, sigs, f, sigs[caf]), InnerBody(p, f),
                         Start(sigs[caf], n));
      var ev := BodyWalk(p, known, intr, sigs, caf).1.evidence;
      assert sigs[caf].intParams == Either(sigs[caf].intParams, ev);
      forall i | 0 <= i < |ev| && ev[i]
        ensures sigs[caf].intParams[i]
      {
        assert Either(sigs[caf].intParams, ev)[i];
      }
    }
  }

  /** The signature of every direct function: the least integer arguments, and, for
      those, the most integer results. */
  method FindSignatures(p: Program, known: Known, intr: Intrinsics, direct: set<nat>) returns (sigs: Sigs)
    requires direct <= known.Keys
    ensures sigs.Keys == direct && ParamsClosed(p, known, intr, sigs) && RetsHold(p, known, intr, sigs)
    ensures forall other: Sigs :: other.Keys == direct && ParamsClosed(p, known, intr, other) ==> ParamsBelow(sigs, other)
    ensures forall other: Sigs :: RetsHold(p, known, intr, other) && SameParams(other, sigs) ==> RetsBelow(other, sigs)
  {
    sigs := map caf | caf in direct :: Sig(seq(Arity(known[caf]), i => false), true);
    sigs := FindParams(p, known, intr, sigs);
    sigs := FindRets(p, known, intr, sigs);
  }

  ghost predicate SameParams(a: Sigs, b: Sigs) {
    a.Keys == b.Keys && forall caf :: caf in a ==> a[caf].intParams == b[caf].intParams
  }

  method FindParams(p: Program, known: Known, intr: Intrinsics, start: Sigs) returns (sigs: Sigs)
    requires WellFormed(known, start)
    requires forall caf :: caf in start ==> start[caf].intRet && forall i :: 0 <= i < |start[caf].intParams| ==> !start[caf].intParams[i]
    ensures sigs.Keys == start.Keys && ParamsClosed(p, known, intr, sigs) && forall caf :: caf in sigs ==> sigs[caf].intRet
    ensures forall other: Sigs :: other.Keys == start.Keys && ParamsClosed(p, known, intr, other) ==> ParamsBelow(sigs, other)
  {
    sigs := start;
    var next := Round(p, known, intr, sigs, false);
    while next != sigs
      invariant WellFormed(known, sigs) && sigs.Keys == start.Keys && forall caf :: caf in sigs ==> sigs[caf].intRet
      invariant next.Keys == sigs.Keys && forall caf :: caf in sigs ==> next[caf] == Improved(p, known, intr, sigs, caf, false)
      invariant forall other: Sigs :: other.Keys == start.Keys && ParamsClosed(p, known, intr, other) ==> ParamsBelow(sigs, other)
      decreases |Unset(sigs)|
    {
      RoundSets(p, known, intr, sigs, next);
      Fewer(Unset(next), Unset(sigs));
      forall other: Sigs | other.Keys == start.Keys && ParamsClosed(p, known, intr, other)
        ensures ParamsBelow(next, other)
      {
        RoundStaysBelow(p, known, intr, sigs, next, other);
      }
      sigs := next;
      next := Round(p, known, intr, sigs, false);
    }
    StableIsClosed(p, known, intr, sigs);
  }

  lemma Fewer<T>(a: set<T>, b: set<T>)
    requires a < b
    ensures |a| < |b|
  {
    assert b == a + (b - a);
  }

  method FindRets(p: Program, known: Known, intr: Intrinsics, start: Sigs) returns (sigs: Sigs)
    requires ParamsClosed(p, known, intr, start) && forall caf :: caf in start ==> start[caf].intRet
    ensures SameParams(sigs, start) && ParamsClosed(p, known, intr, sigs) && RetsHold(p, known, intr, sigs)
    ensures forall other: Sigs :: RetsHold(p, known, intr, other) && SameParams(other, sigs) ==> RetsBelow(other, sigs)
  {
    sigs := start;
    var next := Round(p, known, intr, sigs, true);
    while next != sigs
      invariant WellFormed(known, sigs) && SameParams(sigs, start)
      invariant next.Keys == sigs.Keys && forall caf :: caf in sigs ==> next[caf] == Improved(p, known, intr, sigs, caf, true)
      invariant forall other: Sigs :: RetsHold(p, known, intr, other) && SameParams(other, start) ==> RetsBelow(other, sigs)
      decreases |Returning(sigs)|
    {
      RoundClears(p, known, intr, sigs, next);
      Fewer(Returning(next), Returning(sigs));
      forall other: Sigs | RetsHold(p, known, intr, other) && SameParams(other, start)
        ensures RetsBelow(other, next)
      {
        RoundStaysAbove(p, known, intr, sigs, next, other);
      }
      sigs := next;
      next := Round(p, known, intr, sigs, true);
    }
    StillClosed(p, known, intr, start, sigs);
    forall caf | caf in sigs && sigs[caf].intRet
      ensures BodyWalk(p, known, intr, sigs, caf).0
    {
      assert next[caf] == Improved(p, known, intr, sigs, caf, true);
    }
  }

  lemma RoundClears(p: Program, known: Known, intr: Intrinsics, sigs: Sigs, next: Sigs)
    requires WellFormed(known, sigs) && next.Keys == sigs.Keys && next != sigs
    requires forall caf :: caf in sigs ==> next[caf] == Improved(p, known, intr, sigs, caf, true)
    ensures Returning(next) < Returning(sigs) && WellFormed(known, next) && SameParams(next, sigs)
  {
    assert Returning(next) <= Returning(sigs);
    var caf :| caf in sigs && next[caf] != sigs[caf];
    assert caf in Returning(sigs) && caf !in Returning(next);
  }

  lemma RoundStaysAbove(p: Program, known: Known, intr: Intrinsics, sigs: Sigs, next: Sigs, other: Sigs)
    requires WellFormed(known, sigs) && next.Keys == sigs.Keys
    requires forall caf :: caf in sigs ==> next[caf] == Improved(p, known, intr, sigs, caf, true)
    requires RetsHold(p, known, intr, other) && RetsBelow(other, sigs)
    ensures RetsBelow(other, next)
  {
    forall caf | caf in other && other[caf].intRet
      ensures next[caf].intRet
    {
      var f := known[caf];
      var c1, c2 := Ctx(p, known, intr, other, f, other[caf]), Ctx(p, known, intr, sigs, f, sigs[caf]);
      var n := Arity(f);
      var st := Start(sigs[caf], n);
      ReturnsGrow(c1, c2, InnerBody(p, f), st, st);
    }
  }

  /** The evidence for arguments does not depend on what functions return. */
  lemma StillClosed(p: Program, known: Known, intr: Intrinsics, a: Sigs, b: Sigs)
    requires ParamsClosed(p, known, intr, a) && SameParams(a, b) && WellFormed(known, b)
    ensures ParamsClosed(p, known, intr, b)
  {
    forall caf | caf in b
      ensures Below(BodyWalk(p, known, intr, b, caf).1.evidence, b[caf].intParams)
    {
      var f := known[caf];
      var n := Arity(f);
      var st := Start(a[caf], n);
      EvidenceGrows(Ctx(p, known, intr, b, f, b[caf]), Ctx(p, known, intr, a, f, a[caf]), InnerBody(p, f), st, st);
    }
  }
}
