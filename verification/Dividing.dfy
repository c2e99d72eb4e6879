/** A run from an empty stack on which moving and copying part the other way: an activation
    waits both below a handler and in the slice cut off at it; the slice is resumed by the
    only value that names it, with the resumption of a slice with a cleanup, which the
    activation takes up.  Moved, the one activation holds it for as long as the code below
    the handler waits; copied, only the copy does, which is done.  So the premise that such
    an activation takes up no resumption is needed. */
module Dividing {
  import opened Common
  import opened Reified
  import opened Moving
  import opened Ownership
  import opened Unowned
  import opened Retaining
  import opened Agreeing
  import Parting

  // ---- the program --------------------------------------------------------

  const P := Prompt([Clause(1, Clo(10, []), Captured)], Clo(99, []))
  const Q := Prompt([Clause(2, Clo(11, []), Captured)], Clo(99, []))
  const CLEANUP := Clo(7, [])
  const D := Defer(CLEANUP)
  const BELOW := Ret(0, 0, 9)
  const WITHIN := Ret(0, 1, 3)

  /** Code waits (0) for a handled body (1 to 4) in its own activation, which performs
      operation 1 and takes up the answer (3).  The clause (5 to 7) performs operation 2
      with its resumption, under a handler and a cleanup; the clause of that (8) resumes it
      with its own.  The cleanup (11) applies a value that can be seen. */
  function Block(at: nat, slots: Slots): Deed {
    if at == 0 then Deed(map[], Under(Await(0, 9), 1))
    else if at == 1 then Deed(map[], Under(Install(P.clauses, P.els), 2))
    else if at == 2 then Deed(map[], Under(Await(1, 3), 4))
    else if at == 4 then Deed(map[], Apply(Oper(1), Unit))
    else if at == 5 then Deed(map[], Under(Install(Q.clauses, Q.els), 6))
    else if at == 6 then Deed(map[], Under(Guard(CLEANUP), 7))
    else if at == 7 then Deed(map[1 := None], Apply(Oper(2), Parting.Slot(slots, 1)))
    else if at == 8 then Deed(map[0 := None, 1 := None], Apply(Parting.Slot(slots, 0), Parting.Slot(slots, 1)))
    else if at == 11 then Deed(map[], Apply(Data(5, []), Unit))
    else Deed(map[], Give(Unit))
  }

  function Entry(f: V, args: seq<V>): Option<(Slots, nat)> {
    if f.Clo? && f.code == 10 && |args| == 2 then Some(([Some(args[0]), Some(args[1])], 5))
    else if f.Clo? && f.code == 11 && |args| == 2 then Some(([Some(args[0]), Some(args[1])], 8))
    else if f.Clo? && f.code == 7 && |args| == 0 then Some(([], 11))
    else if f.Clo? && f.code == 99 && |args| == 1 then Some(([Some(args[0])], 12))
    else None
  }

  function Live(at: nat): set<nat> {
    if 5 <= at <= 7 then {1} else if at == 8 then {0, 1} else {}
  }

  function Example(): Program {
    Program(Block, Entry, (f: V, a: V, t: Trace) => if f.Data? then Some(Unit) else None, Live)
  }

  lemma ExampleIsSound()
    ensures Sound(Example())
  {
    var p := Example();
    forall at, a, b | Agree(a, b, p.live(at))
      ensures p.block(at, a) == p.block(at, b)
    {
      assert at == 7 ==> 1 in p.live(at);
      assert at == 8 ==> 0 in p.live(at) && 1 in p.live(at);
    }
    assert LiveIsSound(p);
    forall at, slots, bad | FreeSlots(slots, bad)
      ensures FreeDeed(p.block(at, slots), bad)
    {
      assert ClauseNames(P.clauses) == {} && ClauseNames(Q.clauses) == {};
    }
    forall f, args, bad | Free(Names(f), bad) && Free(NamesAll(args), bad) && p.entry(f, args).Some?
      ensures FreeSlots(p.entry(f, args).value.0, bad)
    {
      forall i | 0 <= i < |args|
        ensures Free(Names(args[i]), bad)
      {
        NamesOfOne(args, i);
      }
    }
  }

  // ---- the states ---------------------------------------------------------

  const U := Some(Unit)
  const S0 := Slice([P, WITHIN], false, false)
  const S1 := Slice([Q, D], false, false)

  function Start(): State {
    State([[None, None]], [], [], Run(0, 0), [])
  }

  function Main(kont: seq<K>, at: nat): State {
    State([[None, None]], [], kont, Run(0, at), [])
  }

  function First(kont: seq<K>, at: nat): State {
    State([[None, None], [U, Some(Res(0))]], [S0], kont, Run(1, at), [])
  }

  /** Just before the resume. */
  function Before(): State {
    State([[None, None], [U, None], [Some(Res(0)), Some(Res(1))]], [S0, S1], [BELOW, AfterClause(0), AfterClause(1)], Run(2, 8), [])
  }

  /** After it, moved: slot 1 of the activation, and what follows. */
  function AfterMove(x: Option<V>, kont: seq<K>, focus: Focus): State {
    State([[None, x], [U, None], [None, None]], [Slice([], true, true), S1], kont, focus, [])
  }

  function AfterCopy(x: Option<V>, kont: seq<K>, focus: Focus): State {
    State([[None, None], [U, None], [None, None], [None, x], [U, None], [None, None]], [Slice([P, WITHIN], true, false), S1], kont, focus, [])
  }

  lemma WriteTwo(x: Option<V>, y: Option<V>, z: Option<V>)
    ensures Written([x, y], map[0 := z]) == [z, y] && Written([x, y], map[1 := z]) == [x, z] && Written([x, y], map[]) == [x, y]
    ensures Written([x, y], map[0 := None, 1 := None]) == [None, None] && Written([], map[]) == [] && Written([x], map[]) == [x]
  {
  }

  // ---- up to the resume ---------------------------------------------------

  lemma Installs(mode: Mode, ask: Ask)
    ensures var p := Example();
            && Step(p, mode, Start(), ask) == Main([BELOW], 1) && Step(p, mode, Main([BELOW], 1), ask) == Main([BELOW, P], 2)
            && Step(p, mode, Main([BELOW, P], 2), ask) == Main([BELOW, P, WITHIN], 4)
  {
    WriteTwo(None, None, None);
    assert [] + [BELOW] == [BELOW] && [BELOW] + [P] == [BELOW, P] && [BELOW, P] + [WITHIN] == [BELOW, P, WITHIN];
  }

  lemma PerformsOne(mode: Mode, ask: Ask)
    ensures Step(Example(), mode, Main([BELOW, P, WITHIN], 4), ask) == First([BELOW, AfterClause(0)], 5)
  {
    WriteTwo(None, None, None);
    Parting.PromptIn([BELOW, P], WITHIN, 1);
    Parting.PromptIn([BELOW], P, 1);
    var kont := [BELOW, P, WITHIN];
    assert [BELOW, P] + [WITHIN] == kont && [BELOW] + [P] == [BELOW, P];
    assert ClauseFor(P.clauses, 1) == Some(P.clauses[0]);
    assert kont[1..] == [P, WITHIN] && kont[..1] == [BELOW] && [BELOW] + [AfterClause(0)] == [BELOW, AfterClause(0)];
  }

  lemma Guards(mode: Mode, ask: Ask)
    ensures var p, k := Example(), [BELOW, AfterClause(0)];
            && Step(p, mode, First(k, 5), ask) == First(k + [Q], 6) && Step(p, mode, First(k + [Q], 6), ask) == First(k + [Q, D], 7)
  {
    WriteTwo(U, Some(Res(0)), None);
    var k := [BELOW, AfterClause(0)];
    assert (k + [Q]) + [D] == k + [Q, D];
    var frames: seq<Slots> := [[None, None], [U, Some(Res(0))]];
    assert frames[1 := [U, Some(Res(0))]] == frames;
  }

  lemma PerformsTwo(mode: Mode, ask: Ask)
    ensures Step(Example(), mode, First([BELOW, AfterClause(0)] + [Q, D], 7), ask) == Before()
  {
    WriteTwo(U, Some(Res(0)), None);
    var k := [BELOW, AfterClause(0)];
    Parting.PromptIn(k + [Q], D, 2);
    Parting.PromptIn(k, Q, 2);
    assert (k + [Q]) + [D] == k + [Q, D];
    assert ClauseFor(Q.clauses, 2) == Some(Q.clauses[0]);
    assert (k + [Q, D])[2..] == [Q, D] && (k + [Q, D])[..2] == k && k + [AfterClause(1)] == [BELOW, AfterClause(0), AfterClause(1)];
    var frames: seq<Slots> := [[None, None], [U, Some(Res(0))]];
    assert frames[1 := [U, None]] == [[None, None], [U, None]];
  }

  // ---- moved --------------------------------------------------------------

  lemma Moves8(ask: Ask)
    requires ask.unique
    ensures Step(Example(), MOVES, Before(), ask) == AfterMove(None, [BELOW, AfterClause(0), AfterClause(1), P, WITHIN], Return(Res(1)))
  {
    WriteTwo(Some(Res(0)), Some(Res(1)), None);
    assert [BELOW, AfterClause(0), AfterClause(1)] + [P, WITHIN] == [BELOW, AfterClause(0), AfterClause(1), P, WITHIN];
  }

  lemma MoveOn(ask: Ask)
    ensures var p, k := Example(), [BELOW, AfterClause(0), AfterClause(1)];
            && Step(p, MOVES, AfterMove(None, k + [P, WITHIN], Return(Res(1))), ask) == AfterMove(Some(Res(1)), k + [P], Run(0, 3))
            && Step(p, MOVES, AfterMove(Some(Res(1)), k + [P], Run(0, 3)), ask) == AfterMove(Some(Res(1)), k + [P], Return(Unit))
  {
    WriteTwo(None, None, Some(Res(1)));
    WriteTwo(None, Some(Res(1)), None);
    var k := [BELOW, AfterClause(0), AfterClause(1)];
    assert (k + [P, WITHIN])[..4] == k + [P];
  }

  /** With the handler's end, one more activation. */
  function Late(st: State): State {
    st.(frames := st.frames + [[U]])
  }

  lemma HandlerEnds(mode: Mode, st: State, ask: Ask)
    requires st.focus == Return(Unit) && st.kont == [BELOW, AfterClause(0), AfterClause(1)] + [P]
    ensures var p, k := Example(), [BELOW, AfterClause(0), AfterClause(1)];
            && Step(p, mode, st, ask) == Late(st).(kont := k, focus := Run(|st.frames|, 12))
            && Step(p, mode, Late(st).(kont := k, focus := Run(|st.frames|, 12)), ask) == Late(st).(kont := k)
  {
    WriteTwo(Some(Unit), None, None);
    var k := [BELOW, AfterClause(0), AfterClause(1)];
    assert (k + [P])[..3] == k;
    assert Late(st).frames[|st.frames| := [U]] == Late(st).frames;
  }

  lemma MoveEnds(ask: Ask, any: Ask)
    requires ask.owned
    ensures var p, r := Example(), Some(Res(1)); var k := [BELOW, AfterClause(0), AfterClause(1)];
            && Step(p, MOVES, Late(AfterMove(r, k, Return(Unit))), ask) == Late(AfterMove(r, [BELOW, AfterClause(0)], Return(Unit)))
            && Step(p, MOVES, Late(AfterMove(r, [BELOW, AfterClause(0)], Return(Unit))), any) == Late(AfterMove(r, [BELOW], Return(Unit)))
            && Step(p, MOVES, Late(AfterMove(r, [BELOW], Return(Unit))), any) == Done(Run(0, 9))
            && Step(p, MOVES, Done(Run(0, 9)), any) == Done(Return(Unit)) && Step(p, MOVES, Done(Return(Unit)), any) == Done(Stopped(Unit))
  {
    WriteTwo(None, Some(Res(1)), U);
    WriteTwo(U, Some(Res(1)), None);
    var k := [BELOW, AfterClause(0), AfterClause(1)];
    assert k[..2] == [BELOW, AfterClause(0)] && [BELOW, AfterClause(0)][..1] == [BELOW] && [BELOW][..0] == [];
    assert Done(Run(0, 9)).frames[0 := [U, Some(Res(1))]] == Done(Run(0, 9)).frames;
  }

  function Done(focus: Focus): State {
    State([[U, Some(Res(1))], [U, None], [None, None], [U]], [Slice([], true, true), S1], [], focus, [])
  }

  // ---- copied -------------------------------------------------------------

  lemma Copies8(ask: Ask)
    ensures Step(Example(), COPIES, Before(), ask) == AfterCopy(None, [BELOW, AfterClause(0), AfterClause(1)] + [P, Ret(3, 1, 3)], Return(Res(1)))
  {
    WriteTwo(Some(Res(0)), Some(Res(1)), None);
    assert MovedAll([P, WITHIN], 3) == [P, Ret(3, 1, 3)];
    var f: seq<Slots> := [[None, None], [U, None], [None, None]];
    assert f + f == [[None, None], [U, None], [None, None], [None, None], [U, None], [None, None]];
  }

  lemma CopyOn(ask: Ask)
    ensures var p, k := Example(), [BELOW, AfterClause(0), AfterClause(1)];
            && Step(p, COPIES, AfterCopy(None, k + [P, Ret(3, 1, 3)], Return(Res(1))), ask) == AfterCopy(Some(Res(1)), k + [P], Run(3, 3))
            && Step(p, COPIES, AfterCopy(Some(Res(1)), k + [P], Run(3, 3)), ask) == AfterCopy(Some(Res(1)), k + [P], Return(Unit))
  {
    WriteTwo(None, None, Some(Res(1)));
    WriteTwo(None, Some(Res(1)), None);
    var k := [BELOW, AfterClause(0), AfterClause(1)];
    assert (k + [P, Ret(3, 1, 3)])[..4] == k + [P];
  }

  function Cleaning(kont: seq<K>, focus: Focus): State {
    var st := Late(AfterCopy(Some(Res(1)), kont, focus));
    st.(frames := st.frames + [[]])
  }

  lemma CopyCleans(ask: Ask, any: Ask)
    requires !ask.owned
    ensures var p, r, t, l := Example(), Some(Res(1)), ThunkRet(Unit), [BELOW, AfterClause(0)];
            && Step(p, COPIES, Late(AfterCopy(r, [BELOW, AfterClause(0), AfterClause(1)], Return(Unit))), ask) == Late(AfterCopy(r, l + [t, D], Return(Unit)))
            && Step(p, COPIES, Late(AfterCopy(r, l + [t, D], Return(Unit))), any) == Cleaning(l + [t, t], Run(7, 11))
            && Step(p, COPIES, Cleaning(l + [t, t], Run(7, 11)), any).trace == [(Data(5, []), Unit)]
  {
    var k, l, t := [BELOW, AfterClause(0), AfterClause(1)], [BELOW, AfterClause(0)], ThunkRet(Unit);
    AtStakeIs();
    hide Defers;
    assert Deferred([CLEANUP]) == [D];
    WriteTwo(None, None, None);
    assert k[..2] == l && l + [t] + [D] == l + [t, D] && (l + [t, D])[..3] == l + [t] && (l + [t]) + [t] == l + [t, t];
    assert Cleaning(l + [t, t], Run(7, 11)).frames[7] == [];
  }

  lemma AtStakeIs()
    ensures Defers([Q, D]) == [CLEANUP]
  {
    Parting.DefersOn([], Q);
    Parting.DefersOn([Q], D);
    assert [] + [Q] == [Q] && [Q] + [D] == [Q, D];
  }

  // ---- what the counts say ------------------------------------------------

  const ALL := Alive({0, 1, 2, 3}, {0, 1})

  lemma NoKNames()
    ensures KNames(P) == {} && KNames(Q) == {} && KNames(D) == {} && KNames(BELOW) == {} && KNames(WITHIN) == {}
    ensures KNames(AfterClause(0)) == {} && KNames(AfterClause(1)) == {}
  {
    assert ClauseNames(P.clauses) == {} && ClauseNames(Q.clauses) == {};
  }

  /** The frames of this run name nothing themselves. */
  lemma StackNames(ks: seq<K>)
    requires forall k :: k in ks ==> k in {P, Q, D, BELOW, WITHIN, AfterClause(0), AfterClause(1)}
    ensures KeepsAll(ALL, ks) && forall r :: !NamedIn(r, ks)
  {
    NoKNames();
    hide KNames;
    forall i | 0 <= i < |ks|
      ensures KNames(ks[i]) == {} && Keeps(ALL, ks[i])
    {
      assert ks[i] in ks;
    }
  }

  lemma NamesOfSlots(x: Option<V>)
    requires x.None? || x == Some(Res(1))
    ensures forall r :: !NamedInSlots(r, [None, None]) && !NamedInSlots(r, [U, None]) && !NamedInSlots(r, [U])
    ensures forall r :: NamedInSlots(r, [None, x]) ==> r == 1 && x.Some?
    ensures KeepsSlots(ALL, [None, x]) && KeepsSlots(ALL, [U, None]) && KeepsSlots(ALL, [None, None]) && KeepsSlots(ALL, [U])
  {
  }

  lemma MoveFrees()
    ensures !Owned(AfterMove(None, [BELOW, AfterClause(0), AfterClause(1), P, WITHIN], Return(Res(1))), 0)
  {
    var m := AfterMove(None, [BELOW, AfterClause(0), AfterClause(1), P, WITHIN], Return(Res(1)));
    StackNames(m.kont);
    StackNames([]);
    StackNames(S1.seg);
    NamesOfSlots(None);
    hide KeepsAll, NamedIn, NamedInSlots, KeepsSlots;
    assert Closed(m, ALL) && !Named(m, ALL, 0);
  }

  lemma NoneWritten()
    ensures !Owned(Wrote(Example(), Before()), 0)
  {
    WriteTwo(Some(Res(0)), Some(Res(1)), None);
    var m := Wrote(Example(), Before());
    assert m == Before().(frames := [[None, None], [U, None], [None, None]]);
    StackNames(m.kont);
    StackNames(S0.seg);
    StackNames(S1.seg);
    NamesOfSlots(None);
    hide KeepsAll, NamedIn, NamedInSlots, KeepsSlots;
    assert Closed(m, ALL) && !Named(m, ALL, 0);
  }

  /** The resume holds the only value that names its slice. */
  lemma ResumedAlone()
    ensures Resumed(Example(), Before()) == Some(0) && Counts(Example())(Before()).unique
  {
    assert Resumed(Example(), Before()) == Some(0);
    MoveFrees();
    NoneWritten();
    Moves8(Ask(false, true));
    hide Owned, Step, Wrote;
  }

  /** Moved, the activation that waits below still holds the resumption. */
  lemma MovedHolds()
    ensures var m := Late(AfterMove(Some(Res(1)), [BELOW, AfterClause(0), AfterClause(1)], Return(Unit)));
            AtBoundary(m) && Bounding(m) == 1 && AtStake(m) == [CLEANUP] && Owned(m, 1)
  {
    var m := Late(AfterMove(Some(Res(1)), [BELOW, AfterClause(0), AfterClause(1)], Return(Unit)));
    AtStakeIs();
    hide Defers;
    forall a | Closed(m, a)
      ensures Named(m, a, 1)
    {
      assert Keeps(a, m.kont[0]) && 0 in a.frames;
      assert m.frames[0][1] == Some(Res(1)) && 1 in Names(Res(1));
      assert NamedInSlots(1, m.frames[0]);
    }
  }

  /** Copied, only the copy did. */
  lemma CopiedLetsGo()
    ensures var c := Late(AfterCopy(Some(Res(1)), [BELOW, AfterClause(0), AfterClause(1)], Return(Unit)));
            AtBoundary(c) && Bounding(c) == 1 && AtStake(c) == [CLEANUP] && !Owned(c, 1)
  {
    var c := Late(AfterCopy(Some(Res(1)), [BELOW, AfterClause(0), AfterClause(1)], Return(Unit)));
    var alive := Alive({0}, {0, 1});
    AtStakeIs();
    NoKNames();
    hide Defers, KNames;
    assert c.frames[0] == [None, None];
    assert Closed(c, alive) && !Named(c, alive, 1);
  }

  // ---- the runs -----------------------------------------------------------

  lemma RunBefore(mode: Mode)
    ensures RunBy(Example(), mode, Counts(Example()), Start(), 7) == Before()
  {
    var p, d, k := Example(), Counts(Example()), [BELOW, AfterClause(0)];
    var s1, s2, s3 := Main([BELOW], 1), Main([BELOW, P], 2), Main([BELOW, P, WITHIN], 4);
    var s4, s5, s6 := First(k, 5), First(k + [Q], 6), First(k + [Q, D], 7);
    assert RunBy(p, mode, d, Start(), 0) == Start();
    hide *;
    Installs(mode, d(Start()));
    Installs(mode, d(s1));
    Installs(mode, d(s2));
    PerformsOne(mode, d(s3));
    Guards(mode, d(s4));
    Guards(mode, d(s5));
    PerformsTwo(mode, d(s6));
    Parting.RunNext(p, mode, d, Start(), 0, Start(), s1);
    Parting.RunNext(p, mode, d, Start(), 1, s1, s2);
    Parting.RunNext(p, mode, d, Start(), 2, s2, s3);
    Parting.RunNext(p, mode, d, Start(), 3, s3, s4);
    Parting.RunNext(p, mode, d, Start(), 4, s4, s5);
    Parting.RunNext(p, mode, d, Start(), 5, s5, s6);
    Parting.RunNext(p, mode, d, Start(), 6, s6, Before());
  }

  /** The moving machine finds the slice owned, and ends without having run the cleanup. */
  lemma RunMoves()
    ensures RunBy(Example(), MOVES, Counts(Example()), Start(), 8) == AfterMove(None, [BELOW, AfterClause(0), AfterClause(1)] + [P, WITHIN], Return(Res(1)))
    ensures RunBy(Example(), MOVES, Counts(Example()), Start(), 12) == Late(AfterMove(Some(Res(1)), [BELOW, AfterClause(0), AfterClause(1)], Return(Unit)))
    ensures RunBy(Example(), MOVES, Counts(Example()), Start(), 17) == Done(Stopped(Unit))
  {
    var p, d, k, r := Example(), Counts(Example()), [BELOW, AfterClause(0), AfterClause(1)], Some(Res(1));
    var s8, s9, s10 := AfterMove(None, k + [P, WITHIN], Return(Res(1))), AfterMove(r, k + [P], Run(0, 3)), AfterMove(r, k + [P], Return(Unit));
    var s11, s12 := Late(s10).(kont := k, focus := Run(|s10.frames|, 12)), Late(AfterMove(r, k, Return(Unit)));
    var s13, s14 := Late(AfterMove(r, [BELOW, AfterClause(0)], Return(Unit))), Late(AfterMove(r, [BELOW], Return(Unit)));
    assert s10.focus == Return(Unit) && s10.kont == k + [P] && s12 == Late(s10).(kont := k);
    assert k + [P, WITHIN] == [BELOW, AfterClause(0), AfterClause(1), P, WITHIN];
    assert d(s12).owned by {
      MovedHolds();
      hide Owned, AfterMove;
    }
    hide *;
    RunBefore(MOVES);
    ResumedAlone();
    Moves8(d(Before()));
    MoveOn(d(s8));
    MoveOn(d(s9));
    HandlerEnds(MOVES, s10, d(s10));
    HandlerEnds(MOVES, s10, d(s11));
    Parting.RunNext(p, MOVES, d, Start(), 7, Before(), s8);
    Parting.RunNext(p, MOVES, d, Start(), 8, s8, s9);
    Parting.RunNext(p, MOVES, d, Start(), 9, s9, s10);
    Parting.RunNext(p, MOVES, d, Start(), 10, s10, s11);
    Parting.RunNext(p, MOVES, d, Start(), 11, s11, s12);
    MoveEnds(d(s12), d(s13));
    MoveEnds(d(s12), d(s14));
    MoveEnds(d(s12), d(Done(Run(0, 9))));
    MoveEnds(d(s12), d(Done(Return(Unit))));
    Parting.RunNext(p, MOVES, d, Start(), 12, s12, s13);
    Parting.RunNext(p, MOVES, d, Start(), 13, s13, s14);
    Parting.RunNext(p, MOVES, d, Start(), 14, s14, Done(Run(0, 9)));
    Parting.RunNext(p, MOVES, d, Start(), 15, Done(Run(0, 9)), Done(Return(Unit)));
    Parting.RunNext(p, MOVES, d, Start(), 16, Done(Return(Unit)), Done(Stopped(Unit)));
  }

  /** The copying machine finds it let go, and runs the cleanup: what it applies can be
      seen. */
  lemma RunCopies()
    ensures RunBy(Example(), COPIES, Counts(Example()), Start(), 12) == Late(AfterCopy(Some(Res(1)), [BELOW, AfterClause(0), AfterClause(1)], Return(Unit)))
    ensures RunBy(Example(), COPIES, Counts(Example()), Start(), 15).trace == [(Data(5, []), Unit)]
  {
    var p, d, k, l, t, r := Example(), Counts(Example()), [BELOW, AfterClause(0), AfterClause(1)], [BELOW, AfterClause(0)], ThunkRet(Unit), Some(Res(1));
    var s8, s9, s10 := AfterCopy(None, k + [P, Ret(3, 1, 3)], Return(Res(1))), AfterCopy(r, k + [P], Run(3, 3)), AfterCopy(r, k + [P], Return(Unit));
    var s11, s12 := Late(s10).(kont := k, focus := Run(|s10.frames|, 12)), Late(AfterCopy(r, k, Return(Unit)));
    var s13, s14 := Late(AfterCopy(r, l + [t, D], Return(Unit))), Cleaning(l + [t, t], Run(7, 11));
    assert s10.focus == Return(Unit) && s10.kont == k + [P] && s12 == Late(s10).(kont := k);
    assert !d(s12).owned by {
      CopiedLetsGo();
      hide Owned, AfterCopy;
    }
    hide *;
    RunBefore(COPIES);
    Copies8(d(Before()));
    CopyOn(d(s8));
    CopyOn(d(s9));
    HandlerEnds(COPIES, s10, d(s10));
    HandlerEnds(COPIES, s10, d(s11));
    Parting.RunNext(p, COPIES, d, Start(), 7, Before(), s8);
    Parting.RunNext(p, COPIES, d, Start(), 8, s8, s9);
    Parting.RunNext(p, COPIES, d, Start(), 9, s9, s10);
    Parting.RunNext(p, COPIES, d, Start(), 10, s10, s11);
    Parting.RunNext(p, COPIES, d, Start(), 11, s11, s12);
    CopyCleans(d(s12), d(s13));
    CopyCleans(d(s12), d(s14));
    Parting.RunNext(p, COPIES, d, Start(), 12, s12, s13);
    Parting.RunNext(p, COPIES, d, Start(), 13, s13, s14);
    Parting.RunNext(p, COPIES, d, Start(), 14, s14, Step(p, COPIES, s14, d(s14)));
  }

  /** A program on which copying is not moving: the moving machine ends with nothing
      applied, and from its fifteenth step on the copying machine has applied something. */
  lemma CopyingRunsMovingSkips(k: nat)
    requires k >= 15
    ensures var p := Example();
            && Sound(p) && RunBy(p, MOVES, Counts(p), Start(), 17).focus == Stopped(Unit)
            && !SeenAlike(RunBy(p, MOVES, Counts(p), Start(), 17), RunBy(p, COPIES, Counts(p), Start(), k))
  {
    ExampleIsSound();
    RunMoves();
    RunCopies();
    var p := Example();
    hide RunBy, Counts, Sound;
    Parting.TraceGrows(p, COPIES, Counts(p), RunBy(p, COPIES, Counts(p), Start(), 15), k - 15);
    RunOn(p, COPIES, Counts(p), Start(), 15, k - 15);
  }

  /** The machines were alike there, and the moving machine's boundary let go of nothing a
      moved slice held; yet the counts differ. */
  lemma CountsDiffer()
    ensures var p := Example(); var m, c := RunBy(p, MOVES, Counts(p), Start(), 12), RunBy(p, COPIES, Counts(p), Start(), 12);
            Bounded(m) && Bounded(c) && Owned(m, 1) && !Owned(c, 1) && forall left :: LetsGo(m, left)
  {
    RunMoves();
    RunCopies();
    MovedHolds();
    CopiedLetsGo();
    hide RunBy, Owned, OwnedYet, AfterMove, AfterCopy, Late;
  }

  predicate Bounded(st: State) {
    AtBoundary(st) && Bounding(st) == 1 && AtStake(st) == [CLEANUP]
  }

  // ---- which premise fails ------------------------------------------------

  /** A state where the run may go on: the slot premise holds, and nothing is asked. */
  ghost predicate Fine(st: State) {
    Polite(Example(), st) && !AtBoundary(st) && Resumed(Example(), st).None?
  }

  lemma ClearNext(st: State, next: State, n: nat)
    requires Fine(st) && Step(Example(), MOVES, st, Counts(Example())(st)) == next && Clear(Example(), next, {}, map[], n)
    ensures Clear(Example(), st, {}, map[], n + 1)
  {
    hide Polite, Step, Counts, Example;
  }

  lemma EarlyFine()
    ensures Fine(Start()) && Fine(Main([BELOW], 1)) && Fine(Main([BELOW, P], 2)) && Fine(Main([BELOW, P, WITHIN], 4))
  {
  }

  lemma FirstFine(kont: seq<K>, at: nat)
    requires 5 <= at <= 7 && forall k :: k in kont ==> k in {BELOW, Q, D, AfterClause(0)}
    ensures Fine(First(kont, at))
  {
    forall i | 0 <= i < |kont|
      ensures !(kont[i].Ret? && kont[i].frame == 1)
    {
      assert kont[i] in kont;
    }
  }

  lemma AllFine()
    ensures var k := [BELOW, AfterClause(0)]; Fine(First(k, 5)) && Fine(First(k + [Q], 6)) && Fine(First(k + [Q, D], 7))
  {
    hide Fine;
    FirstFine([BELOW, AfterClause(0)], 5);
    FirstFine([BELOW, AfterClause(0)] + [Q], 6);
    FirstFine([BELOW, AfterClause(0)] + [Q, D], 7);
  }

  lemma BeforeFine()
    ensures Clear(Example(), Before(), {}, map[], 0) && InBounds(Start()) && Unmoved(Start())
  {
    assert Polite(Example(), Before()) && Steady(Example(), Before(), {});
    hide Polite, Steady;
  }

  /** Up to the resume the run meets every condition; with it the activation is split, and
      what fails next is that it takes up a resumption, and nothing else. */
  lemma OnlySteadyFails()
    ensures var p, st := Example(), Start(); Sound(p) && InBounds(st) && Unmoved(st) && Clear(p, st, {}, map[], 7)
    ensures var p := Example(); var m7, m8 := RunBy(p, MOVES, Counts(p), Start(), 7), RunBy(p, MOVES, Counts(p), Start(), 8);
            Polite(p, m8) && !AtBoundary(m8) && !Steady(p, m8, NextSplit(p, m7, Counts(p)(m7), {}))
  {
    var p, d, k := Example(), Counts(Example()), [BELOW, AfterClause(0)];
    var s1, s2, s3 := Main([BELOW], 1), Main([BELOW, P], 2), Main([BELOW, P, WITHIN], 4);
    var s4, s5, s6 := First(k, 5), First(k + [Q], 6), First(k + [Q, D], 7);
    hide *;
    ExampleIsSound();
    EarlyFine();
    AllFine();
    BeforeFine();
    Installs(MOVES, d(Start()));
    Installs(MOVES, d(s1));
    Installs(MOVES, d(s2));
    PerformsOne(MOVES, d(s3));
    Guards(MOVES, d(s4));
    Guards(MOVES, d(s5));
    PerformsTwo(MOVES, d(s6));
    ClearNext(s6, Before(), 0);
    ClearNext(s5, s6, 1);
    ClearNext(s4, s5, 2);
    ClearNext(s3, s4, 3);
    ClearNext(s2, s3, 4);
    ClearNext(s1, s2, 5);
    ClearNext(Start(), s1, 6);
    RunBefore(MOVES);
    RunMoves();
    TakesUp();
  }

  /** The activation waits below the handler too, and takes up the resumption. */
  lemma TakesUp()
    ensures var p, m := Example(), AfterMove(None, [BELOW, AfterClause(0), AfterClause(1)] + [P, WITHIN], Return(Res(1)));
            Polite(p, m) && !AtBoundary(m) && !Steady(p, m, NextSplit(p, Before(), Counts(p)(Before()), {}))
  {
    var p, m := Example(), AfterMove(None, [BELOW, AfterClause(0), AfterClause(1)] + [P, WITHIN], Return(Res(1)));
    assert m.kont == [BELOW, AfterClause(0), AfterClause(1), P, WITHIN];
    SplitIs();
    PoliteThere(m);
    NotSteady(m, NextSplit(p, Before(), Counts(p)(Before()), {}));
    hide *;
  }

  lemma PoliteThere(m: State)
    requires m == AfterMove(None, [BELOW, AfterClause(0), AfterClause(1), P, WITHIN], Return(Res(1)))
    ensures Polite(Example(), m) && !AtBoundary(m)
  {
  }

  lemma NotSteady(m: State, split: set<nat>)
    requires m == AfterMove(None, [BELOW, AfterClause(0), AfterClause(1), P, WITHIN], Return(Res(1))) && 0 in split
    ensures !Steady(Example(), m, split)
  {
    WriteTwo(None, None, Some(Res(1)));
    assert SlotNames([None, None], 1) == {} && SlotNames([None, Some(Res(1))], 1) == {1};
    assert !SameNames(m.frames[0], Written(m.frames[0], map[1 := Some(Res(1))]));
    hide SameNames, Written;
  }

  lemma SplitIs()
    ensures 0 in NextSplit(Example(), Before(), Counts(Example())(Before()), {})
  {
    ResumedAlone();
    hide Counts;
    var st := Before();
    assert st.slices[0].seg[1] == WITHIN && st.kont[0] == BELOW;
    assert Parted(st, 0, 0);
    assert 0 in PartedBy(st, 0);
  }
}
