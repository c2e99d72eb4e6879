/** A run from an empty stack on which moving and copying part: a clause holds the
    resumption of a slice with a cleanup when it is itself cut off; its own slice is
    resumed by the only value that names it, and the clause then drops what it held.
    Moved, nothing names the slice with the cleanup any more, and the cleanup runs;
    copied, the original still does, and it never runs. */
module Parting {
  import opened Common
  import opened Reified
  import opened Moving
  import opened Ownership
  import opened Unowned
  import opened Retaining
  import opened Agreeing

  // ---- the program --------------------------------------------------------

  const OUTER := Prompt([Clause(0, Clo(10, []), Captured)], Clo(99, []))
  const INNER := Prompt([Clause(1, Clo(11, []), Captured)], Clo(99, []))
  const CLEANUP := Clo(7, [])

  function Slot(slots: Slots, i: nat): V {
    if i < |slots| && slots[i].Some? then slots[i].value else Unit
  }

  /** Under two handlers and a cleanup, operation 1 is performed (0 to 3).  Its clause
      (4 to 6) performs operation 0, and when it goes on drops its resumption.  The other
      clause (7) resumes it.  The cleanup (8) applies a value that can be seen. */
  function Block(at: nat, slots: Slots): Deed {
    if at == 0 then Deed(map[], Under(Install(OUTER.clauses, OUTER.els), 1))
    else if at == 1 then Deed(map[], Under(Install(INNER.clauses, INNER.els), 2))
    else if at == 2 then Deed(map[], Under(Guard(CLEANUP), 3))
    else if at == 3 then Deed(map[], Apply(Oper(1), Unit))
    else if at == 4 then Deed(map[], Under(Await(0, 6), 5))
    else if at == 5 then Deed(map[], Apply(Oper(0), Unit))
    else if at == 6 then Deed(map[1 := None], Give(Unit))
    else if at == 7 then Deed(map[1 := None], Apply(Slot(slots, 1), Unit))
    else if at == 8 then Deed(map[], Apply(Data(5, []), Unit))
    else Deed(map[], Give(Unit))
  }

  function Entry(f: V, args: seq<V>): Option<(Slots, nat)> {
    if f.Clo? && f.code == 10 && |args| == 2 then Some(([Some(args[0]), Some(args[1])], 7))
    else if f.Clo? && f.code == 11 && |args| == 2 then Some(([Some(args[0]), Some(args[1])], 4))
    else if f.Clo? && f.code == 7 && |args| == 0 then Some(([], 8))
    else if f.Clo? && f.code == 99 && |args| == 1 then Some(([Some(args[0])], 9))
    else None
  }

  function Example(): Program {
    Program(Block, Entry, (f: V, a: V, t: Trace) => if f.Data? then Some(Unit) else None, (at: nat) => {0, 1})
  }

  lemma ExampleIsSound()
    ensures Sound(Example())
  {
    var p := Example();
    forall at, a, b | Agree(a, b, p.live(at))
      ensures p.block(at, a) == p.block(at, b)
    {
      assert 1 in p.live(at) && (1 < |a| ==> a[1] == b[1]);
    }
    assert LiveIsSound(p);
    forall at, slots, bad | FreeSlots(slots, bad)
      ensures FreeDeed(p.block(at, slots), bad)
    {
      assert ClauseNames(OUTER.clauses) == {} && ClauseNames(INNER.clauses) == {};
    }
    forall f, args, bad | Free(Names(f), bad) && Free(NamesAll(args), bad) && p.entry(f, args).Some?
      ensures FreeSlots(p.entry(f, args).value.0, bad)
    {
      forall i | 0 <= i < |args|
        ensures Free(Names(args[i]), bad)
      {
        NamesOfOne(args, i);
      }
    }
  }

  // ---- the run ------------------------------------------------------------

  const U := Some(Unit)

  function Start(): State {
    State([[]], [], [], Run(0, 0), [])
  }

  /** Just before the resume. */
  function Before(): State {
    State([[], [U, Some(Res(0))], [U, Some(Res(1))]],
          [Slice([INNER, Defer(CLEANUP)], false, false), Slice([OUTER, AfterClause(0), Ret(1, 0, 6)], false, false)],
          [AfterClause(1)], Run(2, 7), [])
  }

  function Installed(kont: seq<K>, at: nat): State {
    State([[]], [], kont, Run(0, at), [])
  }

  function InClause(kont: seq<K>, at: nat): State {
    State([[], [U, Some(Res(0))]], [Slice([INNER, Defer(CLEANUP)], false, false)], kont, Run(1, at), [])
  }

  /** The moving machine after the resume: slot 1 of the clause, the stack, and the rest. */
  function AfterMove(held: Option<V>, kont: seq<K>, focus: Focus): State {
    State([[], [U, held], [U, None]], [Slice([INNER, Defer(CLEANUP)], false, false), Slice([], true, true)], kont, focus, [])
  }

  function AfterCopy(held: Option<V>, kont: seq<K>, focus: Focus): State {
    State([[], [U, Some(Res(0))], [U, None], [], [U, held], [U, None]],
          [Slice([INNER, Defer(CLEANUP)], false, false), Slice([OUTER, AfterClause(0), Ret(1, 0, 6)], true, false)], kont, focus, [])
  }

  lemma WriteTwo(x: Option<V>, y: Option<V>, z: Option<V>)
    ensures Written([x, y], map[0 := z]) == [z, y] && Written([x, y], map[1 := z]) == [x, z] && Written([x, y], map[]) == [x, y]
    ensures Written([], map[]) == []
  {
  }

  lemma InstallThree(mode: Mode, ask: Ask)
    ensures var p, o, i, d := Example(), OUTER, INNER, Defer(CLEANUP);
            && Step(p, mode, Start(), ask) == Installed([o], 1) && Step(p, mode, Installed([o], 1), ask) == Installed([o, i], 2)
            && Step(p, mode, Installed([o, i], 2), ask) == Installed([o, i, d], 3)
  {
    WriteTwo(None, None, None);
    var o, i, d := OUTER, INNER, Defer(CLEANUP);
    assert [] + [o] == [o] && [o] + [i] == [o, i] && [o, i] + [d] == [o, i, d];
  }

  lemma PromptIn(kont: seq<K>, k: K, op: nat)
    ensures PromptFor(kont + [k], op) ==
            if k.Prompt? && ClauseFor(k.clauses, op).Some? then Some((|kont|, ClauseFor(k.clauses, op).value)) else PromptFor(kont, op)
  {
    assert (kont + [k])[..|kont|] == kont;
  }

  lemma PerformBoth(mode: Mode, ask: Ask)
    ensures var p, o, i, d := Example(), OUTER, INNER, Defer(CLEANUP);
            && Step(p, mode, Installed([o, i, d], 3), ask) == InClause([o, AfterClause(0)], 4)
            && Step(p, mode, InClause([o, AfterClause(0)], 4), ask) == InClause([o, AfterClause(0), Ret(1, 0, 6)], 5)
            && Step(p, mode, InClause([o, AfterClause(0), Ret(1, 0, 6)], 5), ask) == Before()
  {
    var o, i, d := OUTER, INNER, Defer(CLEANUP);
    WriteTwo(U, Some(Res(0)), None);
    PromptIn([o], i, 1);
    PromptIn([o, i], d, 1);
    assert [o, i] + [d] == [o, i, d] && [o] + [i] == [o, i];
    assert [o, i, d][1..] == [i, d] && [o, i, d][..1] == [o] && [o] + [AfterClause(0)] == [o, AfterClause(0)];
    assert ClauseFor(i.clauses, 1) == Some(i.clauses[0]);
    assert [o, AfterClause(0)] + [Ret(1, 0, 6)] == [o, AfterClause(0), Ret(1, 0, 6)];
    hide ClauseFor;
    PerformOuter(mode, ask);
  }

  lemma PerformOuter(mode: Mode, ask: Ask)
    ensures Step(Example(), mode, InClause([OUTER, AfterClause(0), Ret(1, 0, 6)], 5), ask) == Before()
  {
    var o, a, r := OUTER, AfterClause(0), Ret(1, 0, 6);
    WriteTwo(U, Some(Res(0)), None);
    PromptIn([], o, 0);
    PromptIn([o], a, 0);
    PromptIn([o, a], r, 0);
    assert [o, a] + [r] == [o, a, r] && [o] + [a] == [o, a] && [] + [o] == [o];
    assert ClauseFor(o.clauses, 0) == Some(o.clauses[0]);
    assert [o, a, r][0..] == [o, a, r] && [o, a, r][..0] == [] && [] + [AfterClause(1)] == [AfterClause(1)];
  }

  /** The resume, moved, and the delivery and the clause's end after it. */
  lemma MoveOne(ask: Ask)
    requires ask.unique
    ensures var o, a, b := OUTER, AfterClause(0), AfterClause(1);
            Step(Example(), MOVES, Before(), ask) == AfterMove(Some(Res(0)), [b, o, a, Ret(1, 0, 6)], Return(Unit))
  {
    var o, a, b, r := OUTER, AfterClause(0), AfterClause(1), Ret(1, 0, 6);
    WriteTwo(U, Some(Res(1)), None);
    assert [b] + [o, a, r] == [b, o, a, r];
  }

  lemma MoveOn(ask: Ask)
    ensures var p, o, a, b := Example(), OUTER, AfterClause(0), AfterClause(1);
            && Step(p, MOVES, AfterMove(Some(Res(0)), [b, o, a, Ret(1, 0, 6)], Return(Unit)), ask) == AfterMove(Some(Res(0)), [b, o, a], Run(1, 6))
            && Step(p, MOVES, AfterMove(Some(Res(0)), [b, o, a], Run(1, 6)), ask) == AfterMove(None, [b, o, a], Return(Unit))
  {
    var o, a, b, r := OUTER, AfterClause(0), AfterClause(1), Ret(1, 0, 6);
    WriteTwo(U, Some(Res(0)), None);
    WriteTwo(U, Some(Res(0)), U);
    assert [b, o, a, r][..3] == [b, o, a];
  }

  /** The same, copied. */
  lemma Copy3(ask: Ask)
    ensures var p, o, a, b := Example(), OUTER, AfterClause(0), AfterClause(1);
            && Step(p, COPIES, Before(), ask) == AfterCopy(Some(Res(0)), [b, o, a, Ret(4, 0, 6)], Return(Unit))
            && Step(p, COPIES, AfterCopy(Some(Res(0)), [b, o, a, Ret(4, 0, 6)], Return(Unit)), ask) == AfterCopy(Some(Res(0)), [b, o, a], Run(4, 6))
            && Step(p, COPIES, AfterCopy(Some(Res(0)), [b, o, a], Run(4, 6)), ask) == AfterCopy(None, [b, o, a], Return(Unit))
  {
    var o, a, b, r := OUTER, AfterClause(0), AfterClause(1), Ret(1, 0, 6);
    WriteTwo(U, Some(Res(1)), None);
    WriteTwo(U, Some(Res(0)), None);
    WriteTwo(U, Some(Res(0)), U);
    assert MovedAll([o, a, r], 3) == [o, a, Ret(4, 0, 6)];
    assert [b] + [o, a, Ret(4, 0, 6)] == [b, o, a, Ret(4, 0, 6)] && [b, o, a, Ret(4, 0, 6)][..3] == [b, o, a];
    var f := [[], [U, Some(Res(0))], [U, None]];
    assert f + f == [[], [U, Some(Res(0))], [U, None], [], [U, Some(Res(0))], [U, None]];
  }

  // ---- what the counts say ------------------------------------------------

  /** The resume holds the only value that names its slice. */
  lemma ResumedAlone()
    ensures Counts(Example())(Before()).unique
  {
    var o, a, b := OUTER, AfterClause(0), AfterClause(1);
    assert Resumed(Example(), Before()) == Some(1);
    hide *;
    MoveOne(Ask(false, true));
    NoneLeft();
    NoneWritten();
    SoleIs();
  }

  lemma SoleIs()
    requires Resumed(Example(), Before()) == Some(1) && !Owned(Step(Example(), MOVES, Before(), Ask(false, true)), 1) && !Owned(Wrote(Example(), Before()), 1)
    ensures Counts(Example())(Before()).unique
  {
    hide Step, Owned, Before, Resumed, Wrote;
  }

  lemma NoneWritten()
    ensures Before().focus.Run? && Before().focus.frame < |Before().frames| && !Owned(Wrote(Example(), Before()), 1)
  {
    WriteTwo(U, Some(Res(1)), None);
    assert Wrote(Example(), Before()) == Before().(frames := [[], [U, Some(Res(0))], [U, None]]);
    NoneOfThree(Before().(frames := [[], [U, Some(Res(0))], [U, None]]));
    hide Owned;
  }

  lemma NoneOfThree(m: State)
    requires m == Before().(frames := [[], [U, Some(Res(0))], [U, None]])
    ensures !Owned(m, 1)
  {
    var alive := Alive({1, 2}, {0, 1});
    assert ClauseNames(OUTER.clauses) == {} && ClauseNames(INNER.clauses) == {};
    assert KNames(m.kont[0]) == {};
    assert forall i :: 0 <= i < 2 ==> KNames(m.slices[0].seg[i]) == {};
    assert forall i :: 0 <= i < 3 ==> KNames(m.slices[1].seg[i]) == {};
    hide KNames;
    assert Closed(m, alive) && !Named(m, alive, 1);
    hide Closed, Named;
  }

  lemma NoneLeft()
    ensures !Owned(AfterMove(Some(Res(0)), [AfterClause(1), OUTER, AfterClause(0), Ret(1, 0, 6)], Return(Unit)), 1)
  {
    var m, alive := AfterMove(Some(Res(0)), [AfterClause(1), OUTER, AfterClause(0), Ret(1, 0, 6)], Return(Unit)), Alive({1}, {0, 1});
    assert ClauseNames(OUTER.clauses) == {} && ClauseNames(INNER.clauses) == {};
    assert forall i :: 0 <= i < 4 ==> KNames(m.kont[i]) == {};
    assert forall i :: 0 <= i < 2 ==> KNames(m.slices[0].seg[i]) == {};
    hide KNames;
    assert Closed(m, alive) && !Named(m, alive, 1);
    hide Closed, Named;
  }

  lemma AtStakeIs()
    ensures Defers([INNER, Defer(CLEANUP)]) == [CLEANUP]
  {
    DefersOn([], INNER);
    DefersOn([INNER], Defer(CLEANUP));
    assert [] + [INNER] == [INNER] && [INNER] + [Defer(CLEANUP)] == [INNER, Defer(CLEANUP)];
  }

  lemma DefersOn(ks: seq<K>, k: K)
    ensures Defers(ks + [k]) == if k.Defer? then Defers(ks) + [k.cleanup] else Defers(ks)
  {
    assert (ks + [k])[..|ks|] == ks;
  }

  lemma MovedLetsGo()
    ensures var m := AfterMove(None, [AfterClause(1), OUTER, AfterClause(0)], Return(Unit));
            AtBoundary(m) && Bounding(m) == 0 && AtStake(m) == [CLEANUP] && !Owned(m, 0)
  {
    var m, alive := AfterMove(None, [AfterClause(1), OUTER, AfterClause(0)], Return(Unit)), Alive({}, {0, 1});
    AtStakeIs();
    assert Closed(m, alive) && !Named(m, alive, 0) by {
      assert ClauseNames(OUTER.clauses) == {} && ClauseNames(INNER.clauses) == {};
      assert forall i :: 0 <= i < 3 ==> KNames(m.kont[i]) == {};
      assert forall i :: 0 <= i < 2 ==> KNames(m.slices[0].seg[i]) == {};
    }
  }

  lemma CopiedHolds()
    ensures var c := AfterCopy(None, [AfterClause(1), OUTER, AfterClause(0)], Return(Unit));
            AtBoundary(c) && Bounding(c) == 0 && AtStake(c) == [CLEANUP] && Owned(c, 0)
  {
    var c := AfterCopy(None, [AfterClause(1), OUTER, AfterClause(0)], Return(Unit));
    AtStakeIs();
    hide Defers;
    forall a | Closed(c, a)
      ensures Named(c, a, 0)
    {
      assert Keeps(a, c.kont[0]) && 1 in a.slices;
      assert KeepsAll(a, c.slices[1].seg);
      assert Keeps(a, c.slices[1].seg[2]) && 1 in a.frames;
      assert 0 in Names(c.frames[1][1].value) && NamedInSlots(0, c.frames[1]);
    }
  }

  // ---- the runs, each by its own counts -----------------------------------

  lemma RunNext(p: Program, mode: Mode, d: Decider, st: State, n: nat, x: State, y: State)
    requires RunBy(p, mode, d, st, n) == x && Step(p, mode, x, d(x)) == y
    ensures RunBy(p, mode, d, st, n + 1) == y
  {
    hide Step;
    RunOn(p, mode, d, st, n, 1);
    OneStep(p, mode, d, x);
  }

  lemma RunBefore(mode: Mode)
    ensures RunBy(Example(), mode, Counts(Example()), Start(), 6) == Before()
  {
    var p, d, o, i, c := Example(), Counts(Example()), OUTER, INNER, Defer(CLEANUP);
    var s1, s2, s3 := Installed([o], 1), Installed([o, i], 2), Installed([o, i, c], 3);
    var s4, s5 := InClause([o, AfterClause(0)], 4), InClause([o, AfterClause(0), Ret(1, 0, 6)], 5);
    assert RunBy(p, mode, d, Start(), 0) == Start();
    hide *;
    InstallThree(mode, d(Start()));
    InstallThree(mode, d(s1));
    InstallThree(mode, d(s2));
    PerformBoth(mode, d(s3));
    PerformBoth(mode, d(s4));
    PerformBoth(mode, d(s5));
    RunNext(p, mode, d, Start(), 0, Start(), s1);
    RunNext(p, mode, d, Start(), 1, s1, s2);
    RunNext(p, mode, d, Start(), 2, s2, s3);
    RunNext(p, mode, d, Start(), 3, s3, s4);
    RunNext(p, mode, d, Start(), 4, s4, s5);
    RunNext(p, mode, d, Start(), 5, s5, Before());
  }

  function Cleaned(kont: seq<K>, focus: Focus): State {
    AfterMove(None, kont, focus).(frames := AfterMove(None, [], Faulted).frames + [[]])
  }

  /** The boundary passed with its slice let go, and the cleanup run. */
  lemma CleanupRuns(ask: Ask, any: Ask)
    requires !ask.owned
    ensures var p, o, a, b, t := Example(), OUTER, AfterClause(0), AfterClause(1), ThunkRet(Unit);
            && Step(p, MOVES, AfterMove(None, [b, o, a], Return(Unit)), ask) == AfterMove(None, [b, o, t, Defer(CLEANUP)], Return(Unit))
            && Step(p, MOVES, AfterMove(None, [b, o, t, Defer(CLEANUP)], Return(Unit)), any) == Cleaned([b, o, t, t], Run(3, 8))
            && Step(p, MOVES, Cleaned([b, o, t, t], Run(3, 8)), any).trace == [(Data(5, []), Unit)]
  {
    var o, a, b, t, d := OUTER, AfterClause(0), AfterClause(1), ThunkRet(Unit), Defer(CLEANUP);
    AtStakeIs();
    hide Defers;
    assert Deferred([CLEANUP]) == [d];
    WriteTwo(None, None, None);
    assert [b, o, a][..2] == [b, o] && [b, o] + [t] + [d] == [b, o, t, d] && [b, o, t, d][..3] == [b, o, t] && [b, o, t] + [t] == [b, o, t, t];
  }

  /** The moving machine comes to the inner boundary, finds its slice let go, and runs the
      cleanup: what it applies can be seen. */
  lemma RunMoves()
    ensures RunBy(Example(), MOVES, Counts(Example()), Start(), 9) == AfterMove(None, [AfterClause(1), OUTER, AfterClause(0)], Return(Unit))
    ensures RunBy(Example(), MOVES, Counts(Example()), Start(), 12).trace == [(Data(5, []), Unit)]
  {
    var p, d, o, a, b := Example(), Counts(Example()), OUTER, AfterClause(0), AfterClause(1);
    var s7, s8 := AfterMove(Some(Res(0)), [b, o, a, Ret(1, 0, 6)], Return(Unit)), AfterMove(Some(Res(0)), [b, o, a], Run(1, 6));
    var s9, t := AfterMove(None, [b, o, a], Return(Unit)), ThunkRet(Unit);
    var s10, s11 := AfterMove(None, [b, o, t, Defer(CLEANUP)], Return(Unit)), Cleaned([b, o, t, t], Run(3, 8));
    assert !d(s9).owned by {
      MovedLetsGo();
      hide Owned, AfterMove;
    }
    hide *;
    RunBefore(MOVES);
    ResumedAlone();
    MoveOne(d(Before()));
    MoveOn(d(s7));
    MoveOn(d(s8));
    CleanupRuns(d(s9), d(s10));
    CleanupRuns(d(s9), d(s11));
    RunNext(p, MOVES, d, Start(), 6, Before(), s7);
    RunNext(p, MOVES, d, Start(), 7, s7, s8);
    RunNext(p, MOVES, d, Start(), 8, s8, s9);
    RunNext(p, MOVES, d, Start(), 9, s9, s10);
    RunNext(p, MOVES, d, Start(), 10, s10, s11);
    RunNext(p, MOVES, d, Start(), 11, s11, Step(p, MOVES, s11, d(s11)));
  }

  function Ending(kont: seq<K>, focus: Focus): State {
    AfterCopy(None, kont, focus).(frames := AfterCopy(None, [], Faulted).frames + [[U]])
  }

  /** The boundary passed with its slice owned: the handler's end, and the run's. */
  lemma CopyEnds(ask: Ask, any: Ask)
    requires ask.owned
    ensures var p, o, a, b := Example(), OUTER, AfterClause(0), AfterClause(1);
            && Step(p, COPIES, AfterCopy(None, [b, o, a], Return(Unit)), ask) == AfterCopy(None, [b, o], Return(Unit))
            && Step(p, COPIES, AfterCopy(None, [b, o], Return(Unit)), any) == Ending([b], Run(6, 9))
            && Step(p, COPIES, Ending([b], Run(6, 9)), any) == Ending([b], Return(Unit))
            && Step(p, COPIES, Ending([b], Return(Unit)), any) == Ending([], Return(Unit))
            && Step(p, COPIES, Ending([], Return(Unit)), any) == Ending([], Stopped(Unit))
  {
    var o, a, b := OUTER, AfterClause(0), AfterClause(1);
    assert [b, o, a][..2] == [b, o] && [b, o][..1] == [b] && [b][..0] == [];
    assert Written([U], map[]) == [U];
    hide Defers;
  }

  /** The copying machine comes to the same boundary, finds its slice owned, and ends
      without having run the cleanup. */
  lemma RunCopies()
    ensures RunBy(Example(), COPIES, Counts(Example()), Start(), 9) == AfterCopy(None, [AfterClause(1), OUTER, AfterClause(0)], Return(Unit))
    ensures RunBy(Example(), COPIES, Counts(Example()), Start(), 14) == Ending([], Stopped(Unit))
  {
    var p, d, o, a, b := Example(), Counts(Example()), OUTER, AfterClause(0), AfterClause(1);
    var s7, s8 := AfterCopy(Some(Res(0)), [b, o, a, Ret(4, 0, 6)], Return(Unit)), AfterCopy(Some(Res(0)), [b, o, a], Run(4, 6));
    var s9, s10 := AfterCopy(None, [b, o, a], Return(Unit)), AfterCopy(None, [b, o], Return(Unit));
    var s11, s12, s13 := Ending([b], Run(6, 9)), Ending([b], Return(Unit)), Ending([], Return(Unit));
    assert d(s9).owned by {
      CopiedHolds();
      hide Owned, AfterCopy;
    }
    hide *;
    RunBefore(COPIES);
    Copy3(d(Before()));
    Copy3(d(s7));
    Copy3(d(s8));
    RunNext(p, COPIES, d, Start(), 6, Before(), s7);
    RunNext(p, COPIES, d, Start(), 7, s7, s8);
    RunNext(p, COPIES, d, Start(), 8, s8, s9);
    CopyEnds(d(s9), d(s10));
    CopyEnds(d(s9), d(s11));
    CopyEnds(d(s9), d(s12));
    CopyEnds(d(s9), d(s13));
    RunNext(p, COPIES, d, Start(), 9, s9, s10);
    RunNext(p, COPIES, d, Start(), 10, s10, s11);
    RunNext(p, COPIES, d, Start(), 11, s11, s12);
    RunNext(p, COPIES, d, Start(), 12, s12, s13);
    RunNext(p, COPIES, d, Start(), 13, s13, Ending([], Stopped(Unit)));
  }

  lemma {:induction false} TraceGrows(p: Program, mode: Mode, d: Decider, st: State, n: nat)
    ensures |st.trace| <= |RunBy(p, mode, d, st, n).trace|
    decreases n
  {
    if n > 0 {
      TraceStep(p, mode, st, d(st));
      TraceGrows(p, mode, d, Step(p, mode, st, d(st)), n - 1);
    }
  }

  lemma TraceStep(p: Program, mode: Mode, st: State, ask: Ask)
    ensures |st.trace| <= |Step(p, mode, st, ask).trace|
  {
    hide PromptFor, Defers, Deferred, Written, MovedAll;
  }

  /** A program on which moving is not copying: the copying machine ends with nothing
      applied, and from its twelfth step on the moving machine has applied something. */
  lemma MovingRunsCopyingSkips(n: nat)
    requires n >= 12
    ensures var p := Example();
            !SeenAlike(RunBy(p, MOVES, Counts(p), Start(), n), RunBy(p, COPIES, Counts(p), Start(), 14))
            && RunBy(p, COPIES, Counts(p), Start(), 14).focus == Stopped(Unit)
  {
    RunMoves();
    RunCopies();
    var p := Example();
    hide RunBy, Counts;
    TraceGrows(p, MOVES, Counts(p), RunBy(p, MOVES, Counts(p), Start(), 12), n - 12);
    RunOn(p, MOVES, Counts(p), Start(), 12, n - 12);
  }

  // ---- and the run meets every other condition ----------------------------

  /** A state where the run may go on: the premises hold, and nothing is at a boundary. */
  ghost predicate Fine(st: State) {
    Polite(Example(), st) && !AtBoundary(st) && Resumed(Example(), st).None?
  }

  lemma ClearNext(st: State, left: map<nat, Left>, n: nat)
    requires Fine(st) && Clear(Example(), Moves(Example(), st), {}, left, n)
    ensures Clear(Example(), st, {}, left, n + 1)
    ensures LeftAfter(Example(), st, left, n + 1) == LeftAfter(Example(), Moves(Example(), st), left, n)
  {
    hide Polite, Step, Counts, Example;
  }

  lemma InstalledFine(kont: seq<K>, at: nat)
    requires at <= 3
    ensures Fine(Installed(kont, at))
  {
  }

  lemma InClauseFine(kont: seq<K>, at: nat)
    requires at == 4 || at == 5
    ensures Fine(InClause(kont, at))
  {
  }

  lemma AfterMoveFine()
    ensures var o, a, b := OUTER, AfterClause(0), AfterClause(1);
            Fine(AfterMove(Some(Res(0)), [b, o, a, Ret(1, 0, 6)], Return(Unit))) && Fine(AfterMove(Some(Res(0)), [b, o, a], Run(1, 6)))
    ensures var m := AfterMove(None, [AfterClause(1), OUTER, AfterClause(0)], Return(Unit)); Polite(Example(), m) && Steady(Example(), m, {})
  {
  }

  lemma BeforeClear(left: map<nat, Left>, n: nat)
    requires Clear(Example(), Moves(Example(), Before()), {}, NextLeft(Example(), Before(), Counts(Example())(Before()), left), n)
    ensures Clear(Example(), Before(), {}, left, n + 1)
    ensures LeftAfter(Example(), Before(), left, n + 1)
            == LeftAfter(Example(), Moves(Example(), Before()), NextLeft(Example(), Before(), Counts(Example())(Before()), left), n)
  {
    ResumedAlone();
    BeforeFine();
    NoneParted();
    hide *;
    ClearResumed(Example(), Before(), left, n, 1);
  }

  lemma BeforeFine()
    ensures Polite(Example(), Before()) && !AtBoundary(Before()) && Steady(Example(), Before(), {}) && Resumed(Example(), Before()) == Some(1)
  {
  }

  lemma ClearResumed(p: Program, st: State, left: map<nat, Left>, n: nat, r: nat)
    requires Polite(p, st) && !AtBoundary(st) && Steady(p, st, {}) && Resumed(p, st) == Some(r) && PartedBy(st, r) == {} && Counts(p)(st).unique
    requires Clear(p, Moves(p, st), {}, NextLeft(p, st, Counts(p)(st), left), n)
    ensures Clear(p, st, {}, left, n + 1)
    ensures LeftAfter(p, st, left, n + 1) == LeftAfter(p, Moves(p, st), NextLeft(p, st, Counts(p)(st), left), n)
  {
    hide Polite, Steady, Counts, AtBoundary, NextLeft, Step, Resumed, PartedBy;
    var none: set<nat> := {};
    assert none + PartedBy(st, r) == none;
    assert NextSplit(p, st, Counts(p)(st), none) == none;
  }

  lemma NoneParted()
    ensures PartedBy(Before(), 1) == {}
  {
  }

  lemma ExampleEnds(left: map<nat, Left>)
    ensures InBounds(Start()) && Unmoved(Start()) && Start() == Installed([], 0)
    ensures var p, s9 := Example(), AfterMove(None, [AfterClause(1), OUTER, AfterClause(0)], Return(Unit));
            Clear(p, s9, {}, left, 0) && LeftAfter(p, s9, left, 0) == left
  {
    AfterMoveFine();
    hide Polite, Steady;
  }

  /** Up to the inner boundary the run meets every condition under which moving is
      copying; it is there that the boundary does not let go. */
  lemma ExampleIsClear()
    ensures var p, st := Example(), Start(); InBounds(st) && Unmoved(st) && Clear(p, st, {}, map[], 9)
    ensures var m := RunBy(Example(), MOVES, Counts(Example()), Start(), 9); !LetsGo(m, LeftAfter(Example(), Start(), map[], 9))
  {
    var p, d, o, i, c, a, b := Example(), Counts(Example()), OUTER, INNER, Defer(CLEANUP), AfterClause(0), AfterClause(1);
    var s0, s1, s2, s3 := Start(), Installed([o], 1), Installed([o, i], 2), Installed([o, i, c], 3);
    var s4, s5, s6 := InClause([o, a], 4), InClause([o, a, Ret(1, 0, 6)], 5), Before();
    var s7, s8 := AfterMove(Some(Res(0)), [b, o, a, Ret(1, 0, 6)], Return(Unit)), AfterMove(Some(Res(0)), [b, o, a], Run(1, 6));
    var s9, left := AfterMove(None, [b, o, a], Return(Unit)), NextLeft(p, s6, d(s6), map[]);
    ExampleEnds(left);
    MovesNine(s0, s1, s2, s3, s4, s5, s6, s7, s8, s9);
    hide *;
    AfterMoveFine();
    ClearNext(s8, left, 0);
    ClearNext(s7, left, 1);
    BeforeClear(map[], 2);
    InClauseFine([o, a, Ret(1, 0, 6)], 5);
    InClauseFine([o, a], 4);
    ClearNext(s5, map[], 3);
    ClearNext(s4, map[], 4);
    InstalledFine([o, i, c], 3);
    InstalledFine([o, i], 2);
    InstalledFine([o], 1);
    InstalledFine([], 0);
    ClearNext(s3, map[], 5);
    ClearNext(s2, map[], 6);
    ClearNext(s1, map[], 7);
    ClearNext(s0, map[], 8);
    RunMoves();
    HeldYet(left);
    NotLetGo(s9, left);
  }

  lemma NotLetGo(m: State, left: map<nat, Left>)
    requires m == AfterMove(None, [AfterClause(1), OUTER, AfterClause(0)], Return(Unit)) && OwnedYet(m, left, 0)
    ensures !LetsGo(m, left)
  {
    MovedLetsGo();
    hide AfterMove, OwnedYet, Owned, Bounding;
  }

  /** What was left names the slice with the cleanup. */
  lemma HeldYet(left: map<nat, Left>)
    requires left == NextLeft(Example(), Before(), Counts(Example())(Before()), map[])
    ensures OwnedYet(AfterMove(None, [AfterClause(1), OUTER, AfterClause(0)], Return(Unit)), left, 0)
  {
    var m, st := AfterMove(None, [AfterClause(1), OUTER, AfterClause(0)], Return(Unit)), Before();
    ResumedAlone();
    assert Resumed(Example(), st) == Some(1) && left == map[1 := Left(st.slices[1].seg, Wrote(Example(), st).frames)];
    assert Wrote(Example(), st).frames[1] == [U, Some(Res(0))];
    assert 0 in Names(Wrote(Example(), st).frames[1][1].value);
    assert NamedInSlots(0, Wrote(Example(), st).frames[1]);
    assert left[1].seg[2] == Ret(1, 0, 6);
    assert NamedLeft(0, left[1]);
    hide NamedLeft, Counts, Example, NextLeft, KeepsLeft;
    forall a | Closed(m, a)
      ensures 1 in a.slices
    {
      assert Keeps(a, m.kont[0]);
    }
    hide Closed, Named;
  }

  /** What the moving machine takes its states to. */
  lemma MovesNine(s0: State, s1: State, s2: State, s3: State, s4: State, s5: State, s6: State, s7: State, s8: State, s9: State)
    requires var o, i, c, a, b := OUTER, INNER, Defer(CLEANUP), AfterClause(0), AfterClause(1);
             && s0 == Start() && s1 == Installed([o], 1) && s2 == Installed([o, i], 2) && s3 == Installed([o, i, c], 3)
             && s4 == InClause([o, a], 4) && s5 == InClause([o, a, Ret(1, 0, 6)], 5) && s6 == Before()
             && s7 == AfterMove(Some(Res(0)), [b, o, a, Ret(1, 0, 6)], Return(Unit)) && s8 == AfterMove(Some(Res(0)), [b, o, a], Run(1, 6))
             && s9 == AfterMove(None, [b, o, a], Return(Unit))
    ensures Moves(Example(), s0) == s1 && Moves(Example(), s1) == s2 && Moves(Example(), s2) == s3 && Moves(Example(), s3) == s4
    ensures Moves(Example(), s4) == s5 && Moves(Example(), s5) == s6 && Moves(Example(), s6) == s7 && Moves(Example(), s7) == s8 && Moves(Example(), s8) == s9
  {
    var p, d := Example(), Counts(Example());
    forall st
      ensures Moves(p, st) == Step(p, MOVES, st, d(st))
    {
    }
    hide *;
    InstallThree(MOVES, d(s0));
    InstallThree(MOVES, d(s1));
    InstallThree(MOVES, d(s2));
    PerformBoth(MOVES, d(s3));
    PerformBoth(MOVES, d(s4));
    PerformBoth(MOVES, d(s5));
    ResumedAlone();
    MoveOne(d(s6));
    MoveOn(d(s7));
    MoveOn(d(s8));
  }
}
