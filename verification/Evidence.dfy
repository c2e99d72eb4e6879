/** What makes an argument of a direct function unboxed, and what keeps its result boxed:
    the signatures' walk notes an argument exactly when it is used as an integer, and
    doubts the result only for a value it cannot tell to be one. */
module Evidence {
  import opened Common
  import opened Ir
  import opened Currying
  import opened Direct
  import opened Signatures
  import opened Unboxed

  // ---- arguments ----------------------------------------------------------

  /** Atom `a` is argument `k`: captured, or, while slot 0 is still the last argument's
      (`first`), read from there. */
  predicate IsArgument(f: KnownFn, a: Atom, first: bool, k: nat) {
    match a
    case Env(j) => j < |f.env| && f.env[j] == k
    case MoveEnv(j) => j < |f.env| && f.env[j] == k
    case Local(i) => i == 0 && first && k + 1 == Arity(f)
    case Move(i) => i == 0 && first && k + 1 == Arity(f)
    case _ => false
  }

  /** Operand `i` of the call is taken as an integer. */
  predicate TakesInt(c: Ctx, call: Call, i: nat) {
    match call.callee
    case OfPrim => call.name in c.intr && |c.intr[call.name].operands| == |call.args| && i < |call.args| && c.intr[call.name].operands[i] == IntOpnd
    case OfForeign => false
    case OfKnown(caf) => caf in c.sigs && i < |c.sigs[caf].intParams| && c.sigs[caf].intParams[i]
  }

  predicate CallUses(c: Ctx, call: Call, first: bool, k: nat) {
    exists i :: 0 <= i < |call.args| && IsArgument(c.f, call.args[i], first, k) && TakesInt(c, call, i)
  }

  /** No let on the way through `e` takes slot 0. */
  predicate SparesFirst(c: Ctx, e: Expr)
    decreases e
  {
    match e
    case Let(slot, rhs, body) =>
      (match ChainSpec(c.p, c.known, slot, rhs, body)
       case Some(call) => call.rest.Some? ==> slot != 0 && call.rest.value.0 != 0 && SparesFirst(c, call.rest.value.1)
       case None => SparesFirst(c, rhs) && slot != 0 && SparesFirst(c, body))
    case Drop(_, body) => SparesFirst(c, body)
    case _ => true
  }

  /** Somewhere argument `k` is an integer operand, or what a case on integers looks at. */
  predicate UsesAsInt(c: Ctx, e: Expr, first: bool, k: nat)
    decreases e
  {
    match e
    case Let(slot, rhs, body) =>
      (match ChainSpec(c.p, c.known, slot, rhs, body)
       case Some(call) =>
         CallUses(c, call, first, k)
         || (call.rest.Some? && UsesAsInt(c, call.rest.value.1, first && slot != 0 && call.rest.value.0 != 0, k))
       case None => UsesAsInt(c, rhs, first, k) || UsesAsInt(c, body, first && SparesFirst(c, rhs) && slot != 0, k))
    case App(fun, arg) =>
      (match LoneCall(c.p, c.known, fun, arg)
       case Some(call) => CallUses(c, call, first, k)
       case None => false)
    case Case(scrut, alts, default) =>
      || (IsArgument(c.f, scrut, first, k) && exists i :: 0 <= i < |alts| && alts[i].kind.OnInt?)
      || (exists i :: 0 <= i < |alts| && UsesAsInt(c, alts[i].body, first && !TakesFirst(alts[i]), k))
      || UsesAsInt(c, default, first, k)
    case Drop(_, body) => UsesAsInt(c, body, first, k)
    case _ => false
  }

  /** A constructor's binders begin at slot 0. */
  predicate TakesFirst(alt: Alt) {
    alt.kind.OnCon? && alt.base == 0 && |alt.binders| > 0
  }

  lemma NoteIsUse(f: KnownFn, a: Atom, st: IntState, k: nat)
    requires k < |st.evidence|
    ensures Note(f, a, st).evidence[k] <==> st.evidence[k] || IsArgument(f, a, st.p0, k)
  {
  }

  lemma {:induction false} NotesAreUses(f: KnownFn, args: seq<Atom>, wanted: seq<bool>, st: IntState, k: nat)
    requires k < |st.evidence|
    ensures NoteAll(f, args, wanted, st).evidence[k] <==>
              st.evidence[k] || exists i :: 0 <= i < |args| && i < |wanted| && wanted[i] && IsArgument(f, args[i], st.p0, k)
    decreases |args|
  {
    hide IsArgument, Note;
    if |args| > 0 && |wanted| > 0 {
      var st1 := if wanted[0] then Note(f, args[0], st) else st;
      NoteIsUse(f, args[0], st, k);
      NotesAreUses(f, args[1..], wanted[1..], st1, k);
      assert forall i :: 0 < i < |args| ==> args[i] == args[1..][i - 1];
      assert forall i :: 0 < i < |wanted| ==> wanted[i] == wanted[1..][i - 1];
      assert forall i :: 0 <= i < |args| - 1 ==> args[1..][i] == args[i + 1];
      assert forall i :: 0 <= i < |wanted| - 1 ==> wanted[1..][i] == wanted[i + 1];
    }
  }

  lemma CallNotes(c: Ctx, call: Call, st: IntState, k: nat)
    requires k < |st.evidence|
    ensures NoteAll(c.f, call.args, Wanted(c.known, c.intr, c.sigs, call), st).evidence[k] <==> st.evidence[k] || CallUses(c, call, st.p0, k)
  {
    NotesAreUses(c.f, call.args, Wanted(c.known, c.intr, c.sigs, call), st, k);
    hide IsArgument;
  }

  lemma {:induction false} RebindsFirst(base: nat, n: nat, st: IntState)
    ensures RebindAll(base, n, st).p0 == (st.p0 && !(base == 0 && n > 0))
    decreases n
  {
    if n > 0 {
      RebindsFirst(base, n - 1, st);
    }
  }

  /** The walk's evidence for an argument is its uses as an integer, and what there was. */
  lemma {:induction false} EvidenceIsUse(c: Ctx, e: Expr, st: IntState, k: nat)
    requires k < |st.evidence|
    ensures var r := Walk(c, e, st).1;
            |r.evidence| == |st.evidence| && r.p0 == (st.p0 && SparesFirst(c, e)) && (r.evidence[k] <==> st.evidence[k] || UsesAsInt(c, e, st.p0, k))
    decreases e
  {
    hide NoteAll, Wanted, CallYieldsInt, CallUses, IsArgument, ChainSpec, LoneCall;
    match e
    case Let(slot, rhs, body) => LetEvidence(c, slot, rhs, body, st, k);
    case App(fun, arg) =>
      var call := LoneCall(c.p, c.known, fun, arg);
      if call.Some? {
        CallNotes(c, call.value, st, k);
      }
    case Case(scrut, alts, default) =>
      var noted := if exists i :: 0 <= i < |alts| && alts[i].kind.OnInt? then Note(c.f, scrut, st) else st;
      NoteIsUse(c.f, scrut, st, k);
      AltsEvidence(c, alts, noted, k);
      EvidenceIsUse(c, default, WalkAlts(c, alts, noted).1, k);
    case Drop(_, body) => EvidenceIsUse(c, body, st, k);
    case _ =>
  }

  lemma {:induction false} LetEvidence(c: Ctx, slot: nat, rhs: Expr, body: Expr, st: IntState, k: nat)
    requires k < |st.evidence|
    ensures var e := Let(slot, rhs, body); var r := Walk(c, e, st).1;
            |r.evidence| == |st.evidence| && r.p0 == (st.p0 && SparesFirst(c, e)) && (r.evidence[k] <==> st.evidence[k] || UsesAsInt(c, e, st.p0, k))
    decreases Let(slot, rhs, body), 0
  {
    hide NoteAll, Wanted, CallYieldsInt, CallUses, IsArgument, LoneCall;
    var chain := ChainSpec(c.p, c.known, slot, rhs, body);
    if chain.Some? {
      var call := chain.value;
      CallNotes(c, call, st, k);
      if call.rest.Some? {
        assert call.rest.value.1 < Let(slot, rhs, body);
        EvidenceIsUse(c, call.rest.value.1, AfterCall(c, slot, call.rest.value.0, call, st), k);
      }
    } else {
      EvidenceIsUse(c, rhs, st, k);
      var (isInt, st1) := Walk(c, rhs, st);
      EvidenceIsUse(c, body, Rebind(slot, isInt, st1), k);
    }
  }

  lemma {:induction false} AltsEvidence(c: Ctx, alts: seq<Alt>, st: IntState, k: nat)
    requires k < |st.evidence|
    ensures var r := WalkAlts(c, alts, st).1;
            |r.evidence| == |st.evidence|
            && (r.evidence[k] <==> st.evidence[k] || exists i :: 0 <= i < |alts| && UsesAsInt(c, alts[i].body, st.p0 && !TakesFirst(alts[i]), k))
    decreases alts
  {
    hide Walk, UsesAsInt;
    if |alts| > 0 {
      RebindsFirst(alts[0].base, |alts[0].binders|, st);
      EvidenceIsUse(c, alts[0].body, InBranch(alts[0], st), k);
      AltsEvidence(c, alts[1..], st.(evidence := Walk(c, alts[0].body, InBranch(alts[0], st)).1.evidence), k);
      assert forall i :: 0 < i < |alts| ==> alts[i] == alts[1..][i - 1];
      assert forall i :: 0 <= i < |alts| - 1 ==> alts[1..][i] == alts[i + 1];
    }
  }

  // ---- signatures ---------------------------------------------------------

  function ContextOf(p: Program, known: Known, intr: Intrinsics, sigs: Sigs, caf: nat): Ctx
    requires caf in sigs && caf in known
  {
    Ctx(p, known, intr, sigs, known[caf], sigs[caf])
  }

  /** A function's body is walked from the start of its last call: slot 0 holds the last
      argument, an integer if that is unboxed, and nothing has been used yet. */
  lemma BodyEvidence(p: Program, known: Known, intr: Intrinsics, sigs: Sigs, caf: nat, k: nat)
    requires caf in sigs && caf in known && k < Arity(known[caf])
    ensures var evidence := BodyWalk(p, known, intr, sigs, caf).1.evidence;
            && |evidence| == Arity(known[caf])
            && (evidence[k] <==> UsesAsInt(ContextOf(p, known, intr, sigs, caf), InnerBody(p, known[caf]), true, k))
    ensures var n, c := Arity(known[caf]), ContextOf(p, known, intr, sigs, caf);
            exists st: IntState :: (st.ints == if Unboxes(sigs[caf], n - 1) then {0} else {})
              && BodyWalk(p, known, intr, sigs, caf).0 == Walk(c, InnerBody(p, known[caf]), st).0
  {
    var st := Start(sigs[caf], Arity(known[caf]));
    assert st.ints == if Unboxes(sigs[caf], Arity(known[caf]) - 1) then {0} else {};
    EvidenceIsUse(ContextOf(p, known, intr, sigs, caf), InnerBody(p, known[caf]), st, k);
    hide Walk, UsesAsInt;
    assert BodyWalk(p, known, intr, sigs, caf).0 == Walk(ContextOf(p, known, intr, sigs, caf), InnerBody(p, known[caf]), st).0;
  }

  lemma LessEvidence(p: Program, known: Known, intr: Intrinsics, a: Sigs, b: Sigs, caf: nat)
    requires ParamsBelow(a, b) && caf in a && caf in known
    ensures Below(BodyWalk(p, known, intr, a, caf).1.evidence, BodyWalk(p, known, intr, b, caf).1.evidence)
  {
    var n := Arity(known[caf]);
    EvidenceGrows(ContextOf(p, known, intr, a, caf), ContextOf(p, known, intr, b, caf), InnerBody(p, known[caf]), Start(a[caf], n), Start(b[caf], n));
  }

  function Cleared(sigs: Sigs, caf: nat, k: nat): Sigs
    requires caf in sigs && k < |sigs[caf].intParams|
  {
    sigs[caf := sigs[caf].(intParams := sigs[caf].intParams[k := false])]
  }

  lemma ClearedIsClosed(p: Program, known: Known, intr: Intrinsics, sigs: Sigs, caf: nat, k: nat)
    requires ParamsClosed(p, known, intr, sigs) && caf in sigs && k < |sigs[caf].intParams|
    requires var evidence := BodyWalk(p, known, intr, sigs, caf).1.evidence; k < |evidence| && !evidence[k]
    ensures Cleared(sigs, caf, k).Keys == sigs.Keys && ParamsClosed(p, known, intr, Cleared(sigs, caf, k))
  {
    hide BodyWalk;
    var other := Cleared(sigs, caf, k);
    assert ParamsBelow(other, sigs);
    forall d | d in other
      ensures Below(BodyWalk(p, known, intr, other, d).1.evidence, other[d].intParams)
    {
      LessEvidence(p, known, intr, other, sigs, d);
      assert Below(BodyWalk(p, known, intr, sigs, d).1.evidence, sigs[d].intParams);
    }
  }

  /** Of the least assignment, which `FindSignatures` finds: an argument is unboxed if and
      only if the body uses it as an integer. */
  lemma UnboxedForUse(p: Program, known: Known, intr: Intrinsics, sigs: Sigs, caf: nat, k: nat)
    requires ParamsClosed(p, known, intr, sigs)
    requires forall other: Sigs :: other.Keys == sigs.Keys && ParamsClosed(p, known, intr, other) ==> ParamsBelow(sigs, other)
    requires caf in sigs && k < |sigs[caf].intParams|
    ensures k < Arity(known[caf])
    ensures sigs[caf].intParams[k] <==> UsesAsInt(ContextOf(p, known, intr, sigs, caf), InnerBody(p, known[caf]), true, k)
  {
    hide BodyWalk, UsesAsInt;
    BodyEvidence(p, known, intr, sigs, caf, k);
    if !BodyWalk(p, known, intr, sigs, caf).1.evidence[k] {
      ClearedIsClosed(p, known, intr, sigs, caf, k);
      var other := Cleared(sigs, caf, k);
      assert Below(sigs[caf].intParams, other[caf].intParams);
    }
  }

  // ---- results ------------------------------------------------------------

  /** The atom is known to be an integer: a literal, an unboxed argument that was captured,
      or a slot known to hold one. */
  predicate IntAtom(c: Ctx, a: Atom, ints: set<nat>) {
    || a.LitI?
    || ((a.Env? || a.MoveEnv?) && a.field < |c.f.env| && Unboxes(c.sig, c.f.env[a.field]))
    || ((a.Local? || a.Move?) && a.slot in ints)
  }

  /** The call is known to yield an integer: an integer intrinsic that is no comparison, or
      a direct function whose result is unboxed. */
  predicate IntCall(c: Ctx, call: Call) {
    match call.callee
    case OfPrim => call.name in c.intr && |c.intr[call.name].operands| == |call.args| && !c.intr[call.name].boolean
    case OfForeign => false
    case OfKnown(caf) => caf in c.sigs && c.sigs[caf].intRet
  }

  /** It yields a value that cannot be told to be an integer. */
  predicate Doubtful(c: Ctx, s: Expr, ints: set<nat>) {
    match s
    case Ret(a) => !IntAtom(c, a, ints)
    case App(fun, arg) => LoneCall(c.p, c.known, fun, arg).None? || !IntCall(c, LoneCall(c.p, c.known, fun, arg).value)
    case Let(slot, rhs, body) =>
      var call := ChainSpec(c.p, c.known, slot, rhs, body);
      call.Some? && call.value.rest.None? && !IntCall(c, call.value)
    case Build(_, _) => true
    case Access(_, _, _) => true
    case Handle(_, _, _) => true
    case Defer(_, _) => true
    case _ => false
  }

  lemma {:induction false} RebindsIn(base: nat, n: nat, st: IntState)
    ensures st.ints - Range(base, n) <= RebindAll(base, n, st).ints
    decreases n
  {
    if n > 0 {
      RebindsIn(base, n - 1, st);
    }
  }

  /** A slot known to hold an integer is still known to, unless a let takes it. */
  lemma {:induction false} KeepsInts(c: Ctx, e: Expr, st: IntState)
    ensures st.ints - Binds(e) <= Walk(c, e, st).1.ints
    decreases e
  {
    hide NoteAll, Wanted, CallYieldsInt, ChainSpec, LoneCall;
    match e
    case Let(slot, rhs, body) =>
      var chain := ChainSpec(c.p, c.known, slot, rhs, body);
      if chain.Some? {
        RestInside(c, slot, rhs, body);
        if chain.value.rest.Some? {
          KeepsInts(c, chain.value.rest.value.1, AfterCall(c, slot, chain.value.rest.value.0, chain.value, st));
        }
      } else {
        KeepsInts(c, rhs, st);
        var (isInt, st1) := Walk(c, rhs, st);
        KeepsInts(c, body, Rebind(slot, isInt, st1));
      }
    case Drop(_, body) => KeepsInts(c, body, st);
    case _ =>
  }

  lemma {:induction false} RestBinds(name: nat, arity: nat, args: seq<Atom>, used: seq<nat>, drops: seq<nat>, cur: Expr)
    requires |used| > 0 && ChainFrom(name, arity, args, used, drops, cur).Some?
    ensures var rest := ChainFrom(name, arity, args, used, drops, cur).value.rest;
            rest.Some? ==> {rest.value.0} + Binds(rest.value.1) <= {used[|used| - 1]} + Binds(cur)
    decreases cur
  {
    if |args| != arity {
      match cur
      case Drop(slots, body) => RestBinds(name, arity, args, used, drops + slots, body);
      case Let(next, rhs, body) => RestBinds(name, arity, args + [rhs.arg], used + [next], drops, body);
      case _ =>
    }
  }

  lemma RestInside(c: Ctx, slot: nat, rhs: Expr, body: Expr)
    requires ChainSpec(c.p, c.known, slot, rhs, body).Some?
    ensures var rest := ChainSpec(c.p, c.known, slot, rhs, body).value.rest;
            rest.Some? ==>
              && Part(body, rest.value.1) && rest.value.1 < Let(slot, rhs, body)
              && {slot, rest.value.0} + Binds(rest.value.1) <= Binds(Let(slot, rhs, body))
  {
    var (callee, arity) := CalleeOf(c.p, c.known, rhs.fun.name).value;
    RestIsPart(rhs.fun.name, arity, [rhs.arg], [slot], [], body);
    RestBinds(rhs.fun.name, arity, [rhs.arg], [slot], [], body);
  }

  /** The walk doubts a result only for such a value somewhere in the code; and what was
      known of the slots that no let takes is known there. */
  lemma {:induction false} DoubtedForCause(c: Ctx, e: Expr, st: IntState) returns (s: Expr, ints: set<nat>)
    requires !Walk(c, e, st).0
    ensures Part(e, s) && Doubtful(c, s, ints) && st.ints - Binds(e) <= ints
    decreases e
  {
    hide NoteAll, Wanted, ChainSpec, LoneCall;
    s, ints := e, st.ints;
    match e
    case Let(slot, rhs, body) =>
      var chain := ChainSpec(c.p, c.known, slot, rhs, body);
      if chain.Some? {
        RestInside(c, slot, rhs, body);
        if chain.value.rest.Some? {
          var rest := chain.value.rest.value;
          s, ints := DoubtedForCause(c, rest.1, AfterCall(c, slot, rest.0, chain.value, st));
          PartOfPart(body, rest.1, s);
        }
      } else {
        KeepsInts(c, rhs, st);
        var (isInt, st1) := Walk(c, rhs, st);
        s, ints := DoubtedForCause(c, body, Rebind(slot, isInt, st1));
      }
    case Case(scrut, alts, default) =>
      var noted := if exists i :: 0 <= i < |alts| && alts[i].kind.OnInt? then Note(c.f, scrut, st) else st;
      if !WalkAlts(c, alts, noted).0 {
        var i;
        i, s, ints := AltDoubted(c, alts, noted);
        AltRead(alts, i);
      } else {
        s, ints := DoubtedForCause(c, default, WalkAlts(c, alts, noted).1);
      }
    case Drop(_, body) => s, ints := DoubtedForCause(c, body, st);
    case _ =>
  }

  lemma {:induction false} AltDoubted(c: Ctx, alts: seq<Alt>, st: IntState) returns (i: nat, s: Expr, ints: set<nat>)
    requires !WalkAlts(c, alts, st).0
    ensures i < |alts| && Part(alts[i].body, s) && Doubtful(c, s, ints)
    ensures st.ints - (Range(alts[i].base, |alts[i].binders|) + Binds(alts[i].body)) <= ints
    decreases alts
  {
    hide Walk, Doubtful, Part, Binds, Range;
    var first := Walk(c, alts[0].body, InBranch(alts[0], st));
    if !first.0 {
      i := 0;
      s, ints := DoubtedForCause(c, alts[0].body, InBranch(alts[0], st));
      RebindsIn(alts[0].base, |alts[0].binders|, st);
    } else {
      i, s, ints := AltDoubted(c, alts[1..], st.(evidence := first.1.evidence));
      i := i + 1;
    }
  }

  /** What a let makes known of the slots: its own holds an integer exactly when its right
      side, or the call it begins, yields one, and the others are as they were. */
  lemma LetLearns(c: Ctx, slot: nat, rhs: Expr, body: Expr, st: IntState) returns (st2: IntState)
    ensures var chain := ChainSpec(c.p, c.known, slot, rhs, body);
            if chain.None? then
              && Walk(c, Let(slot, rhs, body), st) == Walk(c, body, st2)
              && forall i :: i in st2.ints <==> if i == slot then Walk(c, rhs, st).0 else i in Walk(c, rhs, st).1.ints
            else
              chain.value.rest.Some? ==>
                && Walk(c, Let(slot, rhs, body), st) == Walk(c, chain.value.rest.value.1, st2)
                && forall i :: i in st2.ints <==> if i == chain.value.rest.value.0 then IntCall(c, chain.value) else i != slot && i in st.ints
  {
    hide NoteAll, Wanted, ChainSpec;
    var chain := ChainSpec(c.p, c.known, slot, rhs, body);
    st2 := st;
    if chain.None? {
      var (isInt, st1) := Walk(c, rhs, st);
      st2 := Rebind(slot, isInt, st1);
    } else if chain.value.rest.Some? {
      st2 := AfterCall(c, slot, chain.value.rest.value.0, chain.value, st);
    }
  }
}
