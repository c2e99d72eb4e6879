/** A run from an empty stack on which fusing a chain is seen: a clause is handed the
    resumption of a slice with a cleanup, binds the first partial application of a chain
    over it, and goes on.  Let by let the resumption is gone and the cleanup runs; fused,
    the slot still holds it, and the cleanup never runs. */
module Stale {
  import opened Common
  import opened Ir
  import opened Fusion
  import opened Driver
  import opened Fusing

  // ---- the program --------------------------------------------------------

  const X := Glob(10)
  const Z := Glob(11)
  const NIL := Lit(0)

  /** Under two handlers and a cleanup, operation 0 is performed. */
  const MAIN := Handle(INNER, [OnOp(None, 1, Captured, Atom.Clos(2, []))], Atom.Clos(4, []))
  const INNER := Handle(GUARDED, [OnOp(None, 0, Captured, Atom.Clos(1, []))], Atom.Clos(4, []))
  const GUARDED := Expr.Defer(Atom.Clos(3, []), App(X, NIL))
  /** Its clause hands its resumption to operation 1. */
  const PASSES := Let(0, App(Z, Move(1)), Ir.Ret(NIL))
  /** The clause of that binds a partial application over it, calls the built-in, resumes
      the clause before, and is done. */
  const BINDS := Let(0, App(Glob(0), LitI(1)), REST)
  const REST := Let(2, App(Move(0), LitI(2)), RESUMES)
  const RESUMES := Let(2, App(Move(1), NIL), Ir.Ret(NIL))
  /** The cleanup asks something of the runtime. */
  const CLEANS := App(Glob(1), NIL)
  const SAME := Ir.Ret(Local(0))

  const CODES := [Code(0, 0, MAIN), Code(1, 2, PASSES), Code(1, 3, BINDS), Code(0, 0, CLEANS), Code(1, 1, SAME)]

  function Example(): Program {
    Program(CODES, map[], map[0 := 2, 1 := 1], map[10 := (None, 0), 11 := (None, 1)])
  }

  function Runtime(): World {
    World((name: nat, args: seq<Val>, t: nat) => Some(Int(0)), (i: nat, args: seq<Val>, t: nat) => None, (v: Val, t: nat) => Some(v),
          (c: nat, t: nat) => None, (op: nat, v: Val, vs: seq<Val>, t: nat) => None)
  }

  // ---- the states ---------------------------------------------------------

  const OUTERK := KPrompt([Clause(None, 1, Captured, Clo(2, []))], Clo(4, []))
  const INNERK := KPrompt([Clause(None, 0, Captured, Clo(1, []))], Clo(4, []))
  const CLEANK := KDefer(Clo(3, []))
  const PASSK := KRet(1, 0, Ir.Ret(NIL))
  const BINDK := KRet(2, 2, Ir.Ret(NIL))
  const U := Some(UNIT)
  const EMPTY := Frame([], [])

  const ASKED := Called(0, [Int(1), Int(2)])

  function Start(): State {
    State([EMPTY], [], [], Run(0, MAIN), [])
  }

  function Installed(kont: seq<K>, focus: Focus): State {
    State([EMPTY], [], kont, focus, [])
  }

  const CUT := Slice([INNERK, CLEANK], false, false)
  const PASSED := Slice([OUTERK, KAfterClause(0), PASSK], false, false)

  function InClause(held: Option<Val>, kont: seq<K>, focus: Focus): State {
    State([EMPTY, Frame([U, held], [])], [CUT], kont, focus, [])
  }

  /** In the second clause: its slots, and what has been asked. */
  function InSecond(a: Option<Val>, b: Option<Val>, c: Option<Val>, kont: seq<K>, focus: Focus, trace: seq<Question>): State {
    State([EMPTY, Frame([U, None], []), Frame([a, b, c], [])], [CUT, PASSED], kont, focus, trace)
  }

  /** Once the first clause has been resumed: what slot 0 of the second holds. */
  function Resumed(kept: Option<Val>, kont: seq<K>, focus: Focus): State {
    State([EMPTY, Frame([U, None], []), Frame([kept, None, Some(Int(0))], [])], [CUT, Slice([], true, true)], kont, focus, [ASKED])
  }

  // ---- up to the second clause --------------------------------------------

  lemma ReadTwo(a: nat, b: nat, fr: Frame, tick: nat)
    ensures ReadAtoms(Example(), Runtime(), [Atom.Clos(a, []), Atom.Clos(b, [])], fr, tick) == Gots([Clo(a, []), Clo(b, [])], fr)
  {
    var p, w := Example(), Runtime();
    assert ReadAtoms(p, w, [], fr, tick) == Gots([], fr);
    assert ReadAtom(p, w, Atom.Clos(b, []), fr, tick) == Got(Clo(b, []), fr);
    assert [Atom.Clos(b, [])][1..] == [];
    assert ReadAtoms(p, w, [Atom.Clos(b, [])], fr, tick) == Gots([Clo(b, [])], fr) by {
      assert [Clo(b, [])] + [] == [Clo(b, [])];
    }
    assert [Atom.Clos(a, []), Atom.Clos(b, [])][1..] == [Atom.Clos(b, [])];
  }

  lemma Installs(st: State, body: Expr, op: nat, code: nat)
    requires st.focus == Run(0, Handle(body, [OnOp(None, op, Captured, Atom.Clos(code, []))], Atom.Clos(4, []))) && st.frames == [EMPTY]
    ensures RunCode(Example(), Runtime(), st, 0, st.focus.code)
            == st.(kont := st.kont + [KPrompt([Clause(None, op, Captured, Clo(code, []))], Clo(4, []))], focus := Run(0, body))
  {
    var p, w := Example(), Runtime();
    var clauses := [OnOp(None, op, Captured, Atom.Clos(code, []))];
    assert Funs(clauses) + [Atom.Clos(4, [])] == [Atom.Clos(code, []), Atom.Clos(4, [])];
    ReadTwo(code, 4, EMPTY, |st.trace|);
    var g := ReadAtoms(p, w, Funs(clauses) + [Atom.Clos(4, [])], EMPTY, |st.trace|);
    assert Clauses(clauses, g.values) == [Clause(None, op, Captured, Clo(code, []))];
    assert st.frames[0 := EMPTY] == st.frames;
  }

  lemma PromptIn(kont: seq<K>, k: K, op: nat)
    ensures PromptFor(kont + [k], None, op) ==
            if k.KPrompt? && ClauseFor(k.clauses, None, op).Some? then Some((|kont|, ClauseFor(k.clauses, None, op).value)) else PromptFor(kont, None, op)
  {
    assert (kont + [k])[..|kont|] == kont;
  }

  lemma Begins(ask: Ask)
    ensures var p, w := Example(), Runtime();
            && Step(p, w, Start(), ask) == Installed([OUTERK], Run(0, INNER))
            && Step(p, w, Installed([OUTERK], Run(0, INNER)), ask) == Installed([OUTERK, INNERK], Run(0, GUARDED))
  {
    Installs(Start(), INNER, 1, 2);
    assert [] + [OUTERK] == [OUTERK];
    Installs(Installed([OUTERK], Run(0, INNER)), GUARDED, 0, 1);
    assert [OUTERK] + [INNERK] == [OUTERK, INNERK];
    hide RunHandle, ReadAtoms;
  }

  lemma Guards(ask: Ask)
    ensures Step(Example(), Runtime(), Installed([OUTERK, INNERK], Run(0, GUARDED)), ask) == Installed([OUTERK, INNERK, CLEANK], Run(0, App(X, NIL)))
  {
    assert [OUTERK, INNERK] + [CLEANK] == [OUTERK, INNERK, CLEANK];
    var p, w := Example(), Runtime();
    assert ReadAtom(p, w, Atom.Clos(3, []), EMPTY, 0) == Got(Clo(3, []), EMPTY) by {
      assert ReadAtoms(p, w, [], EMPTY, 0) == Gots([], EMPTY);
    }
    assert [EMPTY][0 := EMPTY] == [EMPTY];
  }

  lemma Performs(ask: Ask)
    ensures Step(Example(), Runtime(), Installed([OUTERK, INNERK, CLEANK], Run(0, App(X, NIL))), ask)
            == Installed([OUTERK, INNERK, CLEANK], Call(0, Operation(None, 0), UNIT))
  {
    assert [EMPTY][0 := EMPTY] == [EMPTY];
  }

  /** The activation of a closure of the program. */
  lemma Entered(code: nat, args: seq<Val>)
    requires code < |CODES| && |args| <= CODES[code].nlocals
    ensures var r := Activation(Example(), Clo(code, []), args);
            && r.Some? && r.value.env == [] && |r.value.locals| == CODES[code].nlocals
            && forall i :: 0 <= i < CODES[code].nlocals ==> r.value.locals[i] == if i < |args| then Some(args[i]) else None
  {
  }

  lemma PerformsFirst(ask: Ask)
    ensures Step(Example(), Runtime(), Installed([OUTERK, INNERK, CLEANK], Call(0, Operation(None, 0), UNIT)), ask)
            == InClause(Some(Resumption(0)), [OUTERK, KAfterClause(0)], Run(1, PASSES))
  {
    PromptIn([OUTERK, INNERK], CLEANK, 0);
    PromptIn([OUTERK], INNERK, 0);
    var kont := [OUTERK, INNERK, CLEANK];
    assert [OUTERK, INNERK] + [CLEANK] == kont && [OUTERK] + [INNERK] == [OUTERK, INNERK];
    assert ClauseFor(INNERK.clauses, None, 0) == Some(INNERK.clauses[0]);
    assert kont[1..] == [INNERK, CLEANK] && kont[..1] == [OUTERK] && [OUTERK] + [KAfterClause(0)] == [OUTERK, KAfterClause(0)];
    Entered(1, [UNIT, Resumption(0)]);
    assert Activation(Example(), Clo(1, []), [UNIT, Resumption(0)]).value.locals == [U, Some(Resumption(0))];
    assert [EMPTY] + [Frame([U, Some(Resumption(0))], [])] == [EMPTY, Frame([U, Some(Resumption(0))], [])];
    assert [] + [CUT] == [CUT];
  }

  lemma Hands(ask: Ask)
    ensures var p, w, k := Example(), Runtime(), [OUTERK, KAfterClause(0)];
            && Step(p, w, InClause(Some(Resumption(0)), k, Run(1, PASSES)), ask) == InClause(Some(Resumption(0)), k + [PASSK], Run(1, App(Z, Move(1))))
            && Step(p, w, InClause(Some(Resumption(0)), k + [PASSK], Run(1, App(Z, Move(1)))), ask)
               == InClause(None, k + [PASSK], Call(1, Operation(None, 1), Resumption(0)))
  {
    var fr := Frame([U, Some(Resumption(0))], []);
    assert fr.locals[1 := None] == [U, None];
    assert [EMPTY, fr][1 := Frame([U, None], [])] == [EMPTY, Frame([U, None], [])];
  }

  lemma PerformsSecond(ask: Ask)
    ensures Step(Example(), Runtime(), InClause(None, [OUTERK, KAfterClause(0)] + [PASSK], Call(1, Operation(None, 1), Resumption(0))), ask)
            == InSecond(Some(Resumption(0)), Some(Resumption(1)), None, [KAfterClause(1)], Run(2, BINDS), [])
  {
    var kont := [OUTERK, KAfterClause(0)] + [PASSK];
    PromptIn([OUTERK, KAfterClause(0)], PASSK, 1);
    PromptIn([OUTERK], KAfterClause(0), 1);
    PromptIn([], OUTERK, 1);
    assert [OUTERK] + [KAfterClause(0)] == [OUTERK, KAfterClause(0)] && [] + [OUTERK] == [OUTERK];
    assert ClauseFor(OUTERK.clauses, None, 1) == Some(OUTERK.clauses[0]);
    assert kont[0..] == [OUTERK, KAfterClause(0), PASSK] && kont[..0] == [] && [] + [KAfterClause(1)] == [KAfterClause(1)];
    Entered(2, [Resumption(0), Resumption(1)]);
    assert Activation(Example(), Clo(2, []), [Resumption(0), Resumption(1)]).value.locals == [Some(Resumption(0)), Some(Resumption(1)), None];
    assert [CUT] + [PASSED] == [CUT, PASSED];
  }

  // ---- the chain ----------------------------------------------------------

  lemma ChainThere()
    ensures FusedChain(Example(), {}, 0, BINDS.rhs, REST) == Some(Chain(0, [LitI(1), LitI(2)], [0, 2], [], Some((2, RESUMES))))
  {
    assert [LitI(1)] + [LitI(2)] == [LitI(1), LitI(2)] && [0] + [2] == [0, 2];
    assert ChainFrom(0, 2, [LitI(1), LitI(2)], [0, 2], [], RESUMES) == Some(Chain(0, [LitI(1), LitI(2)], [0, 2], [], Some((2, RESUMES))));
    assert ChainFrom(0, 2, [LitI(1)], [0], [], REST) == Some(Chain(0, [LitI(1), LitI(2)], [0, 2], [], Some((2, RESUMES))));
  }

  /** Fused: slot 0 keeps the resumption. */
  lemma Fuses(ask: Ask)
    ensures FStep(Example(), Runtime(), {}, InSecond(Some(Resumption(0)), Some(Resumption(1)), None, [KAfterClause(1)], Run(2, BINDS), []), ask)
            == InSecond(Some(Resumption(0)), Some(Resumption(1)), Some(Int(0)), [KAfterClause(1)], Run(2, RESUMES), [ASKED])
  {
    ChainThere();
    var p, w, fr := Example(), Runtime(), Frame([Some(Resumption(0)), Some(Resumption(1)), None], []);
    assert [LitI(1), LitI(2)][1..] == [LitI(2)] && [LitI(2)][1..] == [];
    assert ReadAtoms(p, w, [], fr, 0) == Gots([], fr);
    assert ReadAtoms(p, w, [LitI(2)], fr, 0) == Gots([Int(2)], fr) by {
      assert [Int(2)] + [] == [Int(2)];
    }
    assert ReadAtoms(p, w, [LitI(1), LitI(2)], fr, 0) == Gots([Int(1), Int(2)], fr) by {
      assert [Int(1)] + [Int(2)] == [Int(1), Int(2)];
    }
    assert Clear(fr.locals, []) == fr.locals && [] + [ASKED] == [ASKED];
    assert fr.locals[2 := Some(Int(0))] == [Some(Resumption(0)), Some(Resumption(1)), Some(Int(0))];
  }

  lemma FirstLet(ask: Ask)
    ensures var p, w, b := Example(), Runtime(), KAfterClause(1); var one := Prim(0, [Int(1)]);
            && Step(p, w, InSecond(Some(Resumption(0)), Some(Resumption(1)), None, [b], Run(2, BINDS), []), ask)
               == InSecond(Some(Resumption(0)), Some(Resumption(1)), None, [b, KRet(2, 0, REST)], Run(2, BINDS.rhs), [])
            && Step(p, w, InSecond(Some(Resumption(0)), Some(Resumption(1)), None, [b, KRet(2, 0, REST)], Run(2, BINDS.rhs), []), ask)
               == InSecond(Some(Resumption(0)), Some(Resumption(1)), None, [b, KRet(2, 0, REST)], Call(2, Prim(0, []), Int(1)), [])
            && Step(p, w, InSecond(Some(Resumption(0)), Some(Resumption(1)), None, [b, KRet(2, 0, REST)], Call(2, Prim(0, []), Int(1)), []), ask)
               == InSecond(Some(Resumption(0)), Some(Resumption(1)), None, [b, KRet(2, 0, REST)], Return(one), [])
            && Step(p, w, InSecond(Some(Resumption(0)), Some(Resumption(1)), None, [b, KRet(2, 0, REST)], Return(one), []), ask)
               == InSecond(Some(one), Some(Resumption(1)), None, [b], Run(2, REST), [])
  {
    var b, k := KAfterClause(1), KRet(2, 0, REST);
    assert [b] + [k] == [b, k] && [b, k][..1] == [b] && [] + [Int(1)] == [Int(1)];
    var fr := Frame([Some(Resumption(0)), Some(Resumption(1)), None], []);
    var frames := [EMPTY, Frame([U, None], []), fr];
    assert frames[2 := fr] == frames;
    assert fr.locals[0 := Some(Prim(0, [Int(1)]))] == [Some(Prim(0, [Int(1)])), Some(Resumption(1)), None];
  }

  /** Let by let: slot 0 is empty. */
  lemma SecondLet(ask: Ask)
    ensures var p, w, b := Example(), Runtime(), KAfterClause(1); var one := Prim(0, [Int(1)]);
            && Step(p, w, InSecond(Some(one), Some(Resumption(1)), None, [b], Run(2, REST), []), ask)
               == InSecond(Some(one), Some(Resumption(1)), None, [b, KRet(2, 2, RESUMES)], Run(2, REST.rhs), [])
            && Step(p, w, InSecond(Some(one), Some(Resumption(1)), None, [b, KRet(2, 2, RESUMES)], Run(2, REST.rhs), []), ask)
               == InSecond(None, Some(Resumption(1)), None, [b, KRet(2, 2, RESUMES)], Call(2, one, Int(2)), [])
            && Step(p, w, InSecond(None, Some(Resumption(1)), None, [b, KRet(2, 2, RESUMES)], Call(2, one, Int(2)), []), ask)
               == InSecond(None, Some(Resumption(1)), None, [b, KRet(2, 2, RESUMES)], Return(Int(0)), [ASKED])
            && Step(p, w, InSecond(None, Some(Resumption(1)), None, [b, KRet(2, 2, RESUMES)], Return(Int(0)), [ASKED]), ask)
               == InSecond(None, Some(Resumption(1)), Some(Int(0)), [b], Run(2, RESUMES), [ASKED])
  {
    var b, k, one := KAfterClause(1), KRet(2, 2, RESUMES), Prim(0, [Int(1)]);
    assert [b] + [k] == [b, k] && [b, k][..1] == [b] && [Int(1)] + [Int(2)] == [Int(1), Int(2)] && [] + [ASKED] == [ASKED];
    var fr, fr1 := Frame([Some(one), Some(Resumption(1)), None], []), Frame([None, Some(Resumption(1)), None], []);
    assert fr.locals[0 := None] == fr1.locals && fr1.locals[2 := Some(Int(0))] == [None, Some(Resumption(1)), Some(Int(0))];
    assert [EMPTY, Frame([U, None], []), fr][2 := fr1] == [EMPTY, Frame([U, None], []), fr1];
    assert [EMPTY, Frame([U, None], []), fr1][2 := fr1] == [EMPTY, Frame([U, None], []), fr1];
  }

  // ---- the resume and the boundary ----------------------------------------

  lemma Calls(kept: Option<Val>, ask: Ask)
    ensures var p, w, b := Example(), Runtime(), KAfterClause(1);
            && Step(p, w, InSecond(kept, Some(Resumption(1)), Some(Int(0)), [b], Run(2, RESUMES), [ASKED]), ask)
               == InSecond(kept, Some(Resumption(1)), Some(Int(0)), [b, BINDK], Run(2, App(Move(1), NIL)), [ASKED])
            && Step(p, w, InSecond(kept, Some(Resumption(1)), Some(Int(0)), [b, BINDK], Run(2, App(Move(1), NIL)), [ASKED]), ask)
               == InSecond(kept, None, Some(Int(0)), [b, BINDK], Call(2, Resumption(1), UNIT), [ASKED])
  {
    var b := KAfterClause(1);
    assert [b] + [BINDK] == [b, BINDK];
    var fr, fr1 := Frame([kept, Some(Resumption(1)), Some(Int(0))], []), Frame([kept, None, Some(Int(0))], []);
    assert fr.locals[1 := None] == fr1.locals;
    assert [EMPTY, Frame([U, None], []), fr][2 := fr1] == [EMPTY, Frame([U, None], []), fr1];
  }

  lemma Moves(kept: Option<Val>, ask: Ask)
    requires ask.unique
    ensures Step(Example(), Runtime(), InSecond(kept, None, Some(Int(0)), [KAfterClause(1), BINDK], Call(2, Resumption(1), UNIT), [ASKED]), ask)
            == Resumed(kept, [KAfterClause(1), BINDK, OUTERK, KAfterClause(0), PASSK], Return(UNIT))
  {
    assert [KAfterClause(1), BINDK] + [OUTERK, KAfterClause(0), PASSK] == [KAfterClause(1), BINDK, OUTERK, KAfterClause(0), PASSK];
    assert [CUT, PASSED][1 := Slice([], true, true)] == [CUT, Slice([], true, true)];
  }

  lemma GoesOn(kept: Option<Val>, ask: Ask)
    ensures var p, w, a, b := Example(), Runtime(), KAfterClause(0), KAfterClause(1);
            && Step(p, w, Resumed(kept, [b, BINDK, OUTERK, a, PASSK], Return(UNIT)), ask) == Resumed(kept, [b, BINDK, OUTERK, a], Run(1, Ir.Ret(NIL)))
            && Step(p, w, Resumed(kept, [b, BINDK, OUTERK, a], Run(1, Ir.Ret(NIL))), ask) == Resumed(kept, [b, BINDK, OUTERK, a], Return(UNIT))
  {
    var a, b := KAfterClause(0), KAfterClause(1);
    assert [b, BINDK, OUTERK, a, PASSK][..4] == [b, BINDK, OUTERK, a];
    var fr := Frame([U, None], []);
    assert fr.locals[0 := U] == fr.locals;
    var frames := [EMPTY, fr, Frame([kept, None, Some(Int(0))], [])];
    assert frames[1 := fr] == frames;
  }

  const ALL := Alive({0, 1, 2}, {0, 1})

  lemma NoClauseNames()
    ensures KNames(OUTERK) == {} && KNames(INNERK) == {} && KNames(CLEANK) == {} && KNames(BINDK) == {} && KNames(PASSK) == {}
  {
    assert ClauseNames(OUTERK.clauses) == {} && ClauseNames(INNERK.clauses) == {};
  }

  /** Stacks of the frames of this run keep within what there is, and name nothing. */
  lemma StackKept(ks: seq<K>)
    requires forall k :: k in ks ==> k in {OUTERK, INNERK, CLEANK, BINDK, PASSK, KAfterClause(0), KAfterClause(1)}
    ensures Keeps(ALL, ks) && forall r :: !NamedIn(r, ks)
  {
    NoClauseNames();
    hide KNames;
    assert KNames(KAfterClause(0)) == {} && KNames(KAfterClause(1)) == {} by { NoBoundaryNames(); }
    forall i | 0 <= i < |ks|
      ensures KNames(ks[i]) == {} && (ks[i].KRet? ==> ks[i].frame in ALL.frames) && (ks[i].KAfterClause? ==> ks[i].slice in ALL.slices)
    {
      assert ks[i] in ks;
    }
  }

  lemma NoBoundaryNames()
    ensures KNames(KAfterClause(0)) == {} && KNames(KAfterClause(1)) == {}
  {
  }

  lemma NoFrameNames(held: Option<Val>)
    requires held.None? || held.value == Resumption(0)
    ensures forall r :: !NamedInFrame(r, EMPTY) && !NamedInFrame(r, Frame([U, None], []))
    ensures forall r :: NamedInFrame(r, Frame([held, None, Some(Int(0))], [])) ==> held.Some? && r == 0
  {
  }

  /** With everything alive, only what slot 0 of the second clause holds is named. */
  lemma OnlyHeld(st: State, held: Option<Val>, r: nat)
    requires held.None? || held.value == Resumption(0)
    requires st.frames == [EMPTY, Frame([U, None], []), Frame([held, None, Some(Int(0))], [])] && InHand(st.focus) == {}
    requires st.slices == [CUT, PASSED] || st.slices == [CUT, Slice([], true, true)]
    requires forall k :: k in st.kont ==> k in {OUTERK, INNERK, CLEANK, BINDK, PASSK, KAfterClause(0), KAfterClause(1)}
    requires (st.focus.Run? || st.focus.Call?) ==> st.focus.frame == 2
    requires held.Some? ==> r != 0
    ensures !Owned(st, r)
  {
    StackKept(st.kont);
    StackKept(CUT.seg);
    StackKept(PASSED.seg);
    StackKept([]);
    NoFrameNames(held);
    hide Keeps, NamedIn, NamedInFrame;
    assert Closed(st, ALL);
    assert !Named(st, ALL, r);
  }

  /** The resume holds the only value that names its slice, in both machines. */
  lemma ResumedAlone(kept: Option<Val>)
    requires kept.None? || kept.value == Resumption(0)
    ensures Counts(InSecond(kept, None, Some(Int(0)), [KAfterClause(1), BINDK], Call(2, Resumption(1), UNIT), [ASKED])).unique
  {
    hide Owned;
    OnlyHeld(InSecond(kept, None, Some(Int(0)), [KAfterClause(1), BINDK], Call(2, Resumption(1), UNIT), [ASKED]), kept, 1);
  }

  lemma KeptOwns()
    ensures Counts(Resumed(Some(Resumption(0)), [KAfterClause(1), BINDK, OUTERK, KAfterClause(0)], Return(UNIT))).owned
  {
    var st := Resumed(Some(Resumption(0)), [KAfterClause(1), BINDK, OUTERK, KAfterClause(0)], Return(UNIT));
    forall a | Closed(st, a)
      ensures Named(st, a, 0)
    {
      assert st.kont[1].frame in a.frames;
      assert NamedInRow(0, st.frames[2].locals) by {
        assert st.frames[2].locals[0] == Some(Resumption(0));
      }
    }
  }

  lemma NoneOwns()
    ensures !Counts(Resumed(None, [KAfterClause(1), BINDK, OUTERK, KAfterClause(0)], Return(UNIT))).owned
  {
    hide Owned;
    OnlyHeld(Resumed(None, [KAfterClause(1), BINDK, OUTERK, KAfterClause(0)], Return(UNIT)), None, 0);
  }

  // ---- the ends -----------------------------------------------------------

  const SLICES := [CUT, Slice([], true, true)]

  function Ending(frames: seq<Frame>, kont: seq<K>, focus: Focus, trace: seq<Question>): State {
    State(frames, SLICES, kont, focus, trace)
  }

  /** Owned: the boundary is passed. */
  lemma Passes(kept: Option<Val>, ask: Ask)
    requires ask.owned
    ensures Step(Example(), Runtime(), Resumed(kept, [KAfterClause(1), BINDK, OUTERK, KAfterClause(0)], Return(UNIT)), ask)
            == Resumed(kept, [KAfterClause(1), BINDK, OUTERK], Return(UNIT))
  {
    assert [KAfterClause(1), BINDK, OUTERK, KAfterClause(0)][..3] == [KAfterClause(1), BINDK, OUTERK];
  }

  /** Let go: the cleanup runs, and asks. */
  lemma Cleans(ask: Ask)
    requires !ask.owned
    ensures var p, w, k, t, fs := Example(), Runtime(), [KAfterClause(1), BINDK, OUTERK], KThunkRet(UNIT), Resumed(None, [], Return(UNIT)).frames;
            var more := fs + [EMPTY];
            && Step(p, w, Resumed(None, k + [KAfterClause(0)], Return(UNIT)), ask) == Ending(fs, k + [t, CLEANK], Return(UNIT), [ASKED])
            && Step(p, w, Ending(fs, k + [t, CLEANK], Return(UNIT), [ASKED]), ask) == Ending(more, k + [t, t], Run(3, CLEANS), [ASKED])
            && Step(p, w, Ending(more, k + [t, t], Run(3, CLEANS), [ASKED]), ask) == Ending(more, k + [t, t], Call(3, Prim(1, []), UNIT), [ASKED])
            && Step(p, w, Ending(more, k + [t, t], Call(3, Prim(1, []), UNIT), [ASKED]), ask)
               == Ending(more, k + [t, t], Return(Int(0)), [ASKED, Called(1, [UNIT])])
            && Step(p, w, Ending(more, k + [t, t], Return(Int(0)), [ASKED, Called(1, [UNIT])]), ask)
               == Ending(more, k + [t], Return(UNIT), [ASKED, Called(1, [UNIT])])
            && Step(p, w, Ending(more, k + [t], Return(UNIT), [ASKED, Called(1, [UNIT])]), ask)
               == Ending(more, k, Return(UNIT), [ASKED, Called(1, [UNIT])])
  {
    var k, t, fs := [KAfterClause(1), BINDK, OUTERK], KThunkRet(UNIT), Resumed(None, [], Return(UNIT)).frames;
    var more := fs + [EMPTY];
    assert (k + [KAfterClause(0)])[..3] == k && (k + [t, CLEANK])[..4] == k + [t] && (k + [t]) + [t] == k + [t, t];
    assert Defers(CUT.seg) == [Clo(3, [])] by {
      assert [INNERK, CLEANK][..1] == [INNERK] && [INNERK][..0] == [];
      assert Defers([]) == [];
      assert Defers([INNERK]) == [];
      assert [] + [Clo(3, [])] == [Clo(3, [])];
    }
    assert Deferred([Clo(3, [])]) == [CLEANK] && k + [t] + [CLEANK] == k + [t, CLEANK];
    Entered(3, []);
    assert Activation(Example(), Clo(3, []), []).value == EMPTY;
    assert more[3 := EMPTY] == more && [ASKED] + [Called(1, [UNIT])] == [ASKED, Called(1, [UNIT])];
    assert [] + [UNIT] == [UNIT];
    assert (k + [t, t])[..4] == k + [t] && (k + [t])[..3] == k;
  }

  lemma Next(st: State, s: State, n: nat)
    requires Step(Example(), Runtime(), st, Counts(st)) == s
    ensures RunBy(Example(), Runtime(), st, n + 1) == RunBy(Example(), Runtime(), s, n)
    ensures ChainAt(Example(), {}, st).None? ==> FRunBy(Example(), Runtime(), {}, st, n + 1) == FRunBy(Example(), Runtime(), {}, s, n)
  {
    hide Step, Counts, ChainAt;
  }

  /** Not a chain: the callee is no built-in. */
  lemma NotAChain(st: State)
    requires st.focus.Run? && (st.focus.code == PASSES || st.focus.code == RESUMES)
    ensures ChainAt(Example(), {}, st).None?
  {
  }

  lemma FNext(st: State, s: State, n: nat)
    requires FStep(Example(), Runtime(), {}, st, Counts(st)) == s
    ensures FRunBy(Example(), Runtime(), {}, st, n + 1) == FRunBy(Example(), Runtime(), {}, s, n)
  {
    hide FStep, Counts;
  }

  /** From past the inner boundary: the handler's end, the second clause's, and the run's. */
  lemma Finishes(frames: seq<Frame>, trace: seq<Question>, ask: Ask)
    requires |frames| >= 3 && |frames[2].locals| == 3
    ensures var p, w, b, same := Example(), Runtime(), KAfterClause(1), Frame([U], []);
            var more := frames + [same]; var filled := more[2 := Filled(frames[2], 2, UNIT)];
            && Step(p, w, Ending(frames, [b, BINDK, OUTERK], Return(UNIT), trace), ask) == Ending(more, [b, BINDK], Run(|frames|, SAME), trace)
            && Step(p, w, Ending(more, [b, BINDK], Run(|frames|, SAME), trace), ask) == Ending(more, [b, BINDK], Return(UNIT), trace)
            && Step(p, w, Ending(more, [b, BINDK], Return(UNIT), trace), ask) == Ending(filled, [b], Run(2, Ir.Ret(NIL)), trace)
            && Step(p, w, Ending(filled, [b], Run(2, Ir.Ret(NIL)), trace), ask) == Ending(filled, [b], Return(UNIT), trace)
            && Step(p, w, Ending(filled, [b], Return(UNIT), trace), ask) == Ending(filled, [], Return(UNIT), trace)
            && Step(p, w, Ending(filled, [], Return(UNIT), trace), ask) == Ending(filled, [], Stopped(UNIT), trace)
  {
    var b, same := KAfterClause(1), Frame([U], []);
    var more := frames + [same];
    var filled := more[2 := Filled(frames[2], 2, UNIT)];
    assert [b, BINDK, OUTERK][..2] == [b, BINDK] && [b, BINDK][..1] == [b] && [b][..0] == [];
    Entered(4, [UNIT]);
    assert Activation(Example(), Clo(4, []), [UNIT]).value.locals == [U];
    assert more[|frames| := same] == more;
    assert filled[2 := filled[2]] == filled;
  }

  lemma RunEnds(frames: seq<Frame>, trace: seq<Question>)
    requires |frames| >= 3 && |frames[2].locals| == 3
    ensures var st := Ending(frames, [KAfterClause(1), BINDK, OUTERK], Return(UNIT), trace);
            var s, s' := RunBy(Example(), Runtime(), st, 6), FRunBy(Example(), Runtime(), {}, st, 6);
            && s.focus == Stopped(UNIT) && s.trace == trace && s'.focus == Stopped(UNIT) && s'.trace == trace
  {
    var b, same := KAfterClause(1), Frame([U], []);
    var more := frames + [same];
    var filled := more[2 := Filled(frames[2], 2, UNIT)];
    var s0, s1, s2 := Ending(frames, [b, BINDK, OUTERK], Return(UNIT), trace), Ending(more, [b, BINDK], Run(|frames|, SAME), trace), Ending(more, [b, BINDK], Return(UNIT), trace);
    var s3, s4, s5 := Ending(filled, [b], Run(2, Ir.Ret(NIL)), trace), Ending(filled, [b], Return(UNIT), trace), Ending(filled, [], Return(UNIT), trace);
    var s6 := Ending(filled, [], Stopped(UNIT), trace);
    Finishes(frames, trace, Counts(s0));
    Finishes(frames, trace, Counts(s1));
    Finishes(frames, trace, Counts(s2));
    Finishes(frames, trace, Counts(s3));
    Finishes(frames, trace, Counts(s4));
    Finishes(frames, trace, Counts(s5));
    assert RunBy(Example(), Runtime(), s6, 0) == s6 && FRunBy(Example(), Runtime(), {}, s6, 0) == s6;
    hide Step, Counts, RunBy, FRunBy;
    Next(s0, s1, 5);
    Next(s1, s2, 4);
    Next(s2, s3, 3);
    Next(s3, s4, 2);
    Next(s4, s5, 1);
    Next(s5, s6, 0);
  }

  // ---- the runs -----------------------------------------------------------

  /** The second clause as it is entered. */
  function Second(): State {
    InSecond(Some(Resumption(0)), Some(Resumption(1)), None, [KAfterClause(1)], Run(2, BINDS), [])
  }

  /** Up to the second clause, nothing is fused. */
  lemma Reaches(n: nat)
    ensures RunBy(Example(), Runtime(), Start(), n + 8) == RunBy(Example(), Runtime(), Second(), n)
    ensures FRunBy(Example(), Runtime(), {}, Start(), n + 8) == FRunBy(Example(), Runtime(), {}, Second(), n)
  {
    hide Step, Counts, RunBy, FRunBy;
    var k := [OUTERK, KAfterClause(0)];
    var s0, s1, s2 := Start(), Installed([OUTERK], Run(0, INNER)), Installed([OUTERK, INNERK], Run(0, GUARDED));
    var s3, s4 := Installed([OUTERK, INNERK, CLEANK], Run(0, App(X, NIL))), Installed([OUTERK, INNERK, CLEANK], Call(0, Operation(None, 0), UNIT));
    var s5, s6 := InClause(Some(Resumption(0)), k, Run(1, PASSES)), InClause(Some(Resumption(0)), k + [PASSK], Run(1, App(Z, Move(1))));
    var s7 := InClause(None, k + [PASSK], Call(1, Operation(None, 1), Resumption(0)));
    Begins(Counts(s0));
    Begins(Counts(s1));
    Guards(Counts(s2));
    Performs(Counts(s3));
    PerformsFirst(Counts(s4));
    Hands(Counts(s5));
    Hands(Counts(s6));
    PerformsSecond(Counts(s7));
    NotAChain(s5);
    Next(s0, s1, n + 7);
    Next(s1, s2, n + 6);
    Next(s2, s3, n + 5);
    Next(s3, s4, n + 4);
    Next(s4, s5, n + 3);
    Next(s5, s6, n + 2);
    Next(s6, s7, n + 1);
    Next(s7, Second(), n);
  }

  lemma NoneAreChains(kept: Option<Val>)
    ensures var p, a, b := Example(), KAfterClause(0), KAfterClause(1);
            && ChainAt(p, {}, InSecond(kept, Some(Resumption(1)), Some(Int(0)), [b], Run(2, RESUMES), [ASKED])).None?
            && ChainAt(p, {}, InSecond(kept, Some(Resumption(1)), Some(Int(0)), [b, BINDK], Run(2, App(Move(1), NIL)), [ASKED])).None?
            && ChainAt(p, {}, InSecond(kept, None, Some(Int(0)), [b, BINDK], Call(2, Resumption(1), UNIT), [ASKED])).None?
            && ChainAt(p, {}, Resumed(kept, [b, BINDK, OUTERK, a, PASSK], Return(UNIT))).None?
            && ChainAt(p, {}, Resumed(kept, [b, BINDK, OUTERK, a], Run(1, Ir.Ret(NIL)))).None?
  {
    NotAChain(InSecond(kept, Some(Resumption(1)), Some(Int(0)), [KAfterClause(1)], Run(2, RESUMES), [ASKED]));
    hide FusedChain;
  }

  /** From past the chain to the inner boundary. */
  lemma ToBoundary(kept: Option<Val>, n: nat)
    requires kept.None? || kept.value == Resumption(0)
    ensures var st := InSecond(kept, Some(Resumption(1)), Some(Int(0)), [KAfterClause(1)], Run(2, RESUMES), [ASKED]);
            var s := Resumed(kept, [KAfterClause(1), BINDK, OUTERK, KAfterClause(0)], Return(UNIT));
            && RunBy(Example(), Runtime(), st, n + 5) == RunBy(Example(), Runtime(), s, n)
            && FRunBy(Example(), Runtime(), {}, st, n + 5) == FRunBy(Example(), Runtime(), {}, s, n)
  {
    var a, b := KAfterClause(0), KAfterClause(1);
    var s0 := InSecond(kept, Some(Resumption(1)), Some(Int(0)), [b], Run(2, RESUMES), [ASKED]);
    var s1 := InSecond(kept, Some(Resumption(1)), Some(Int(0)), [b, BINDK], Run(2, App(Move(1), NIL)), [ASKED]);
    var s2 := InSecond(kept, None, Some(Int(0)), [b, BINDK], Call(2, Resumption(1), UNIT), [ASKED]);
    var s3, s4 := Resumed(kept, [b, BINDK, OUTERK, a, PASSK], Return(UNIT)), Resumed(kept, [b, BINDK, OUTERK, a], Run(1, Ir.Ret(NIL)));
    NoneAreChains(kept);
    hide *;
    Calls(kept, Counts(s0));
    Calls(kept, Counts(s1));
    ResumedAlone(kept);
    Moves(kept, Counts(s2));
    GoesOn(kept, Counts(s3));
    GoesOn(kept, Counts(s4));
    Next(s0, s1, n + 4);
    Next(s1, s2, n + 3);
    Next(s2, s3, n + 2);
    Next(s3, s4, n + 1);
    Next(s4, Resumed(kept, [b, BINDK, OUTERK, a], Return(UNIT)), n);
  }

  /** The fused machine ends without having run the cleanup. */
  lemma FusedSkips()
    ensures var s := FRunBy(Example(), Runtime(), {}, Start(), 21); s.focus == Stopped(UNIT) && s.trace == [ASKED]
  {
    hide Step, FStep, Counts, RunBy, FRunBy;
    var kept := Some(Resumption(0));
    var past := InSecond(kept, Some(Resumption(1)), Some(Int(0)), [KAfterClause(1)], Run(2, RESUMES), [ASKED]);
    var at := Resumed(kept, [KAfterClause(1), BINDK, OUTERK, KAfterClause(0)], Return(UNIT));
    Reaches(13);
    Fuses(Counts(Second()));
    FNext(Second(), past, 12);
    ToBoundary(kept, 7);
    KeptOwns();
    Passes(kept, Counts(at));
    Next(at, Resumed(kept, [KAfterClause(1), BINDK, OUTERK], Return(UNIT)), 6);
    RunEnds(Resumed(kept, [], Return(UNIT)).frames, [ASKED]);
  }

  /** Let by let, the cleanup runs, and asks. */
  lemma LetByLetCleans()
    ensures var s := RunBy(Example(), Runtime(), Start(), 33); s.focus == Stopped(UNIT) && s.trace == [ASKED, Called(1, [UNIT])]
  {
    hide Step, Counts, RunBy, FRunBy;
    Reaches(25);
    ChainLetByLet(17);
    ToBoundary(None, 12);
    CleansUp(6);
    RunEnds(Resumed(None, [], Return(UNIT)).frames + [EMPTY], [ASKED, Called(1, [UNIT])]);
  }

  lemma ChainLetByLet(n: nat)
    ensures RunBy(Example(), Runtime(), Second(), n + 8)
            == RunBy(Example(), Runtime(), InSecond(None, Some(Resumption(1)), Some(Int(0)), [KAfterClause(1)], Run(2, RESUMES), [ASKED]), n)
  {
    var b, one, r0, r1 := KAfterClause(1), Prim(0, [Int(1)]), Some(Resumption(0)), Some(Resumption(1));
    var k, l := KRet(2, 0, REST), KRet(2, 2, RESUMES);
    var s1, s2 := InSecond(r0, r1, None, [b, k], Run(2, BINDS.rhs), []), InSecond(r0, r1, None, [b, k], Call(2, Prim(0, []), Int(1)), []);
    var s3, s4 := InSecond(r0, r1, None, [b, k], Return(one), []), InSecond(Some(one), r1, None, [b], Run(2, REST), []);
    var s5, s6 := InSecond(Some(one), r1, None, [b, l], Run(2, REST.rhs), []), InSecond(None, r1, None, [b, l], Call(2, one, Int(2)), []);
    var s7 := InSecond(None, r1, None, [b, l], Return(Int(0)), [ASKED]);
    FirstLet(Counts(Second()));
    FirstLet(Counts(s1));
    FirstLet(Counts(s2));
    FirstLet(Counts(s3));
    SecondLet(Counts(s4));
    SecondLet(Counts(s5));
    SecondLet(Counts(s6));
    SecondLet(Counts(s7));
    hide Step, Counts, RunBy, FRunBy, FusedChain;
    Next(Second(), s1, n + 7);
    Next(s1, s2, n + 6);
    Next(s2, s3, n + 5);
    Next(s3, s4, n + 4);
    Next(s4, s5, n + 3);
    Next(s5, s6, n + 2);
    Next(s6, s7, n + 1);
    Next(s7, InSecond(None, r1, Some(Int(0)), [b], Run(2, RESUMES), [ASKED]), n);
  }

  lemma CleansUp(n: nat)
    ensures var st := Resumed(None, [KAfterClause(1), BINDK, OUTERK, KAfterClause(0)], Return(UNIT));
            RunBy(Example(), Runtime(), st, n + 6)
            == RunBy(Example(), Runtime(), Ending(st.frames + [EMPTY], [KAfterClause(1), BINDK, OUTERK], Return(UNIT), [ASKED, Called(1, [UNIT])]), n)
  {
    var k, t, fs := [KAfterClause(1), BINDK, OUTERK], KThunkRet(UNIT), Resumed(None, [], Return(UNIT)).frames;
    var more, two := fs + [EMPTY], [ASKED, Called(1, [UNIT])];
    assert k + [KAfterClause(0)] == [KAfterClause(1), BINDK, OUTERK, KAfterClause(0)];
    var s0, s1 := Resumed(None, k + [KAfterClause(0)], Return(UNIT)), Ending(fs, k + [t, CLEANK], Return(UNIT), [ASKED]);
    var s2, s3 := Ending(more, k + [t, t], Run(3, CLEANS), [ASKED]), Ending(more, k + [t, t], Call(3, Prim(1, []), UNIT), [ASKED]);
    var s4, s5 := Ending(more, k + [t, t], Return(Int(0)), two), Ending(more, k + [t], Return(UNIT), two);
    NoneOwns();
    var none := Ask(false, false);
    Cleans(none);
    assert Counts(s0).owned == false && !AtBoundary(s1) && !AtBoundary(s2) && !AtBoundary(s3) && !AtBoundary(s4) && !AtBoundary(s5);
    Cleans(Counts(s0));
    Cleans(Counts(s1));
    Cleans(Counts(s2));
    Cleans(Counts(s3));
    Cleans(Counts(s4));
    Cleans(Counts(s5));
    hide Step, Counts, RunBy, FRunBy, FusedChain;
    Next(s0, s1, n + 5);
    Next(s1, s2, n + 4);
    Next(s2, s3, n + 3);
    Next(s3, s4, n + 2);
    Next(s4, s5, n + 1);
    Next(s5, Ending(more, k, Return(UNIT), two), n);
  }

  lemma {:induction false} FusedStays(st: State, n: nat)
    requires st.focus.Stopped?
    ensures FRunBy(Example(), Runtime(), {}, st, n) == st
    decreases n
  {
    if n > 0 {
      FusedStays(st, n - 1);
    }
  }

  lemma {:induction false} FRunMore(st: State, a: nat, b: nat)
    ensures FRunBy(Example(), Runtime(), {}, st, a + b) == FRunBy(Example(), Runtime(), {}, FRunBy(Example(), Runtime(), {}, st, a), b)
    decreases a
  {
    hide FStep, Counts;
    if a > 0 {
      FRunMore(FStep(Example(), Runtime(), {}, st, Counts(st)), a - 1, b);
    }
  }

  /** A program on which fusing a chain is seen: let by let the run ends having asked
      twice; the fused machine ends too, and at no point has it ended like that. */
  lemma FusingSkipsACleanup(k: nat)
    ensures var p, w := Example(), Runtime();
            && RunBy(p, w, Start(), 33).focus == Stopped(UNIT) && FRunBy(p, w, {}, Start(), 21).focus == Stopped(UNIT)
            && !SeenAlike(RunBy(p, w, Start(), 33), FRunBy(p, w, {}, Start(), k))
  {
    hide RunBy, FRunBy, Example, Runtime, Start;
    FusedSkips();
    LetByLetCleans();
    var done, now := FRunBy(Example(), Runtime(), {}, Start(), 21), FRunBy(Example(), Runtime(), {}, Start(), k);
    if k >= 21 {
      FRunMore(Start(), 21, k - 21);
      FusedStays(done, k - 21);
    } else if now.focus.Stopped? {
      FRunMore(Start(), k, 21 - k);
      FusedStays(now, 21 - k);
    }
  }

  lemma NoFSteps(st: State)
    ensures FRunBy(Example(), Runtime(), {}, st, 0) == st
  {
  }

  lemma HeldThere(c: Chain, fr: Frame)
    requires c.slots == [0, 2] && c.rest.Some? && c.rest.value.0 == 2 && |fr.locals| > 0 && fr.locals[0] == Some(Resumption(0))
    ensures !Spare(c, fr, Plain())
  {
    assert c.slots[0] == 0;
    assert 0 in Names(Resumption(0));
  }

  /** The chain's slot was not tidy: it held the resumption. */
  lemma SlotNotTidy()
    ensures FRunBy(Example(), Runtime(), {}, Start(), 8) == Second() && !Tidy(Example(), {}, Second(), Plain())
  {
    hide FRunBy, RunBy, Spare, FusedChain;
    Reaches(0);
    ChainThere();
    NoFSteps(Second());
    HeldThere(ChainAt(Example(), {}, Second()).value, Second().frames[2]);
  }
}
