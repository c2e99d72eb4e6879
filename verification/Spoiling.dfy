/** A run from an empty stack on which skipping and capturing part: a clause passes on the
    resumption of a slice with a cleanup, and the clause given it performs an operation
    whose clause cannot resume.  Captured, that abandoned slice keeps the one with the
    cleanup owned while its boundary is on the stack, and the cleanup never runs; skipped,
    it does. */
module Spoiling {
  import opened Common
  import opened Reified
  import opened Moving
  import opened Ownership
  import opened Skipping
  import opened Abandoning
  import opened Parting

  // ---- the program --------------------------------------------------------

  const LOST := Prompt([Clause(2, Clo(12, []), Never)], Clo(99, []))

  /** As far as the first clause the program of `Parting`.  The clause (4 to 6) performs
      operation 0 with its resumption; the clause for that (7 to 10) performs operation 2,
      which cannot resume, with its own resumption, under a handler of its own; and the
      clause for that (11) resumes it. */
  function Blocks(at: nat, slots: Slots): Deed {
    if at < 5 then Block(at, slots)
    else if at == 5 then Deed(map[1 := None], Apply(Oper(0), Slot(slots, 1)))
    else if at == 7 then Deed(map[], Under(Install(LOST.clauses, LOST.els), 8))
    else if at == 8 then Deed(map[], Under(Await(5, 10), 9))
    else if at == 9 then Deed(map[1 := None], Apply(Oper(2), Slot(slots, 1)))
    else if at == 11 then Deed(map[0 := None], Apply(Slot(slots, 0), Unit))
    else if at == 12 then Deed(map[], Apply(Data(5, []), Unit))
    else Deed(map[], Give(Unit))
  }

  function Entries(f: V, args: seq<V>): Option<(Slots, nat)> {
    if f.Clo? && f.code == 10 && |args| == 2 then Some(([Some(args[0]), Some(args[1])], 7))
    else if f.Clo? && f.code == 11 && |args| == 2 then Some(([Some(args[0]), Some(args[1])], 4))
    else if f.Clo? && f.code == 12 && |args| == 1 then Some(([Some(args[0])], 11))
    else if f.Clo? && f.code == 7 && |args| == 0 then Some(([], 12))
    else if f.Clo? && f.code == 99 && |args| == 1 then Some(([Some(args[0])], 13))
    else None
  }

  function Losing(): Program {
    Program(Blocks, Entries, (f: V, a: V, t: Trace) => if f.Data? then Some(Unit) else None, (at: nat) => {0, 1})
  }

  lemma LosingIsSound()
    ensures NoForging(Losing()) && Starts(Start())
  {
    var p := Losing();
    forall at, slots, bad | FreeSlots(slots, bad)
      ensures FreeDeed(p.block(at, slots), bad)
    {
      assert ClauseNames(OUTER.clauses) == {} && ClauseNames(INNER.clauses) == {} && ClauseNames(LOST.clauses) == {};
    }
    forall f, args, bad | Free(Names(f), bad) && Free(NamesAll(args), bad) && p.entry(f, args).Some?
      ensures FreeSlots(p.entry(f, args).value.0, bad)
    {
      forall i | 0 <= i < |args|
        ensures Free(Names(args[i]), bad)
      {
        NamesOfOne(args, i);
      }
    }
  }

  // ---- the run, as far as both go alike -----------------------------------

  const INNERMOST := Slice([INNER, Defer(CLEANUP)], false, false)
  const CLAUSE := Slice([OUTER, AfterClause(0), Ret(1, 0, 6)], false, false)

  function InOuter(kont: seq<K>, at: nat): State {
    State([[], [U, None], [Some(Res(0)), Some(Res(1))]], [INNERMOST, CLAUSE], kont, Run(2, at), [])
  }

  lemma LosingInstalls(mode: Mode, ask: Ask)
    ensures var p, o, i, d := Losing(), OUTER, INNER, Defer(CLEANUP);
            && Step(p, mode, Start(), ask) == Installed([o], 1) && Step(p, mode, Installed([o], 1), ask) == Installed([o, i], 2)
            && Step(p, mode, Installed([o, i], 2), ask) == Installed([o, i, d], 3)
  {
    WriteTwo(None, None, None);
    var o, i, d := OUTER, INNER, Defer(CLEANUP);
    assert [] + [o] == [o] && [o] + [i] == [o, i] && [o, i] + [d] == [o, i, d];
  }

  lemma PerformInner(mode: Mode, ask: Ask)
    ensures var p, o, i, d := Losing(), OUTER, INNER, Defer(CLEANUP);
            && Step(p, mode, Installed([o, i, d], 3), ask) == InClause([o, AfterClause(0)], 4)
            && Step(p, mode, InClause([o, AfterClause(0)], 4), ask) == InClause([o, AfterClause(0), Ret(1, 0, 6)], 5)
  {
    var o, i, d := OUTER, INNER, Defer(CLEANUP);
    WriteTwo(U, Some(Res(0)), None);
    PromptIn([o], i, 1);
    PromptIn([o, i], d, 1);
    assert [o, i] + [d] == [o, i, d] && [o] + [i] == [o, i];
    assert [o, i, d][1..] == [i, d] && [o, i, d][..1] == [o] && [o] + [AfterClause(0)] == [o, AfterClause(0)];
    assert ClauseFor(i.clauses, 1) == Some(i.clauses[0]);
    assert [o, AfterClause(0)] + [Ret(1, 0, 6)] == [o, AfterClause(0), Ret(1, 0, 6)];
  }

  lemma PerformPassing(mode: Mode, ask: Ask)
    ensures Step(Losing(), mode, InClause([OUTER, AfterClause(0), Ret(1, 0, 6)], 5), ask) == InOuter([AfterClause(1)], 7)
  {
    var o, a, r := OUTER, AfterClause(0), Ret(1, 0, 6);
    WriteTwo(U, Some(Res(0)), None);
    PromptIn([], o, 0);
    PromptIn([o], a, 0);
    PromptIn([o, a], r, 0);
    assert [o, a] + [r] == [o, a, r] && [o] + [a] == [o, a] && [] + [o] == [o];
    assert ClauseFor(o.clauses, 0) == Some(o.clauses[0]);
    assert [o, a, r][0..] == [o, a, r] && [o, a, r][..0] == [] && [] + [AfterClause(1)] == [AfterClause(1)];
  }

  lemma InstallLost(mode: Mode, ask: Ask)
    ensures var p, b, l := Losing(), AfterClause(1), LOST;
            && Step(p, mode, InOuter([b], 7), ask) == InOuter([b, l], 8)
            && Step(p, mode, InOuter([b, l], 8), ask) == InOuter([b, l, Ret(2, 5, 10)], 9)
  {
    var b, l := AfterClause(1), LOST;
    WriteTwo(Some(Res(0)), Some(Res(1)), None);
    assert [b] + [l] == [b, l] && [b, l] + [Ret(2, 5, 10)] == [b, l, Ret(2, 5, 10)];
  }

  lemma RunLost(mode: Mode)
    ensures RunBy(Losing(), mode, Counts(Losing()), Start(), 8) == InOuter([AfterClause(1), LOST, Ret(2, 5, 10)], 9)
  {
    var p, d, o, i, c, b, l := Losing(), Counts(Losing()), OUTER, INNER, Defer(CLEANUP), AfterClause(1), LOST;
    var s1, s2, s3 := Installed([o], 1), Installed([o, i], 2), Installed([o, i, c], 3);
    var s4, s5 := InClause([o, AfterClause(0)], 4), InClause([o, AfterClause(0), Ret(1, 0, 6)], 5);
    var s6, s7, s8 := InOuter([b], 7), InOuter([b, l], 8), InOuter([b, l, Ret(2, 5, 10)], 9);
    assert RunBy(p, mode, d, Start(), 0) == Start();
    hide *;
    LosingInstalls(mode, d(Start()));
    LosingInstalls(mode, d(s1));
    LosingInstalls(mode, d(s2));
    PerformInner(mode, d(s3));
    PerformInner(mode, d(s4));
    PerformPassing(mode, d(s5));
    InstallLost(mode, d(s6));
    InstallLost(mode, d(s7));
    RunNext(p, mode, d, Start(), 0, Start(), s1);
    RunNext(p, mode, d, Start(), 1, s1, s2);
    RunNext(p, mode, d, Start(), 2, s2, s3);
    RunNext(p, mode, d, Start(), 3, s3, s4);
    RunNext(p, mode, d, Start(), 4, s4, s5);
    RunNext(p, mode, d, Start(), 5, s5, s6);
    RunNext(p, mode, d, Start(), 6, s6, s7);
    RunNext(p, mode, d, Start(), 7, s7, s8);
  }

  // ---- where they part ----------------------------------------------------

  /** The abandoned slice: captured, or not kept. */
  function Lost(captured: bool): Slice {
    if captured then Slice([LOST, Ret(2, 5, 10)], false, false) else Slice([], false, true)
  }

  function Bounds(captured: bool): seq<K> {
    if captured then [AfterClause(1), AfterClause(2)] else [AfterClause(1)]
  }

  function ModeOf(captured: bool): Mode {
    if captured then CAPTURES else COPIES
  }

  function InNever(captured: bool): State {
    State([[], [U, None], [Some(Res(0)), None], [Some(Res(1))]], [INNERMOST, CLAUSE, Lost(captured)], Bounds(captured), Run(3, 11), [])
  }

  /** After the resume: the activations twice, and the clause's end. */
  function AfterResume(captured: bool, kont: seq<K>, focus: Focus): State {
    State([[], [U, None], [Some(Res(0)), None], [None], [], [U, None], [Some(Res(0)), None], [None]],
          [INNERMOST, CLAUSE.(used := true), Lost(captured)], Bounds(captured) + kont, focus, [])
  }

  lemma LostFound()
    ensures var b, l, r := AfterClause(1), LOST, Ret(2, 5, 10);
            PromptFor([b, l, r], 2) == Some((1, l.clauses[0])) && Defers([l, r]) == []
  {
    var b, l, r := AfterClause(1), LOST, Ret(2, 5, 10);
    PromptIn([b], l, 2);
    PromptIn([b, l], r, 2);
    assert [b, l] + [r] == [b, l, r] && [b] + [l] == [b, l];
    assert ClauseFor(l.clauses, 2) == Some(l.clauses[0]);
    DefersOn([], l);
    DefersOn([l], r);
    assert [] + [l] == [l] && [l] + [r] == [l, r];
  }

  lemma PerformNever(captured: bool, ask: Ask)
    ensures Step(Losing(), ModeOf(captured), InOuter([AfterClause(1), LOST, Ret(2, 5, 10)], 9), ask) == InNever(captured)
  {
    var b, l, r := AfterClause(1), LOST, Ret(2, 5, 10);
    WriteTwo(Some(Res(0)), Some(Res(1)), None);
    LostFound();
    hide PromptFor, ClauseFor, Defers, Written;
    assert [b, l, r][1..] == [l, r] && [b, l, r][..1] == [b] && [b] + [AfterClause(2)] == [b, AfterClause(2)] && [b] + [] == [b];
  }

  lemma ResumeCopied(captured: bool, ask: Ask)
    ensures var p, mode, o, a := Losing(), ModeOf(captured), OUTER, AfterClause(0);
            && Step(p, mode, InNever(captured), ask) == AfterResume(captured, [o, a, Ret(5, 0, 6)], Return(Unit))
            && Step(p, mode, AfterResume(captured, [o, a, Ret(5, 0, 6)], Return(Unit)), ask) == AfterResume(captured, [o, a], Run(5, 6))
            && Step(p, mode, AfterResume(captured, [o, a], Run(5, 6)), ask) == AfterResume(captured, [o, a], Return(Unit))
  {
    var o, a := OUTER, AfterClause(0);
    assert Written([Some(Res(1))], map[0 := None]) == [None];
    WriteTwo(U, None, None);
    WriteTwo(U, None, U);
    assert MovedAll([o, a, Ret(1, 0, 6)], 4) == [o, a, Ret(5, 0, 6)];
    var f := [[], [U, None], [Some(Res(0)), None], [None]];
    assert f + f == [[], [U, None], [Some(Res(0)), None], [None], [], [U, None], [Some(Res(0)), None], [None]];
    var k := Bounds(captured) + [o, a, Ret(5, 0, 6)];
    assert k[..|k| - 1] == Bounds(captured) + [o, a] && k[|k| - 1] == Ret(5, 0, 6);
  }

  /** The boundary both come to after twelve steps. */
  lemma RunMeets(captured: bool)
    ensures RunBy(Losing(), ModeOf(captured), Counts(Losing()), Start(), 12) == AfterResume(captured, [OUTER, AfterClause(0)], Return(Unit))
  {
    var p, mode, d, o, a := Losing(), ModeOf(captured), Counts(Losing()), OUTER, AfterClause(0);
    var s8, s9, s10 := InOuter([AfterClause(1), LOST, Ret(2, 5, 10)], 9), InNever(captured), AfterResume(captured, [o, a, Ret(5, 0, 6)], Return(Unit));
    var s11, s12 := AfterResume(captured, [o, a], Run(5, 6)), AfterResume(captured, [o, a], Return(Unit));
    hide *;
    RunLost(mode);
    PerformNever(captured, d(s8));
    ResumeCopied(captured, d(s9));
    ResumeCopied(captured, d(s10));
    ResumeCopied(captured, d(s11));
    RunNext(p, mode, d, Start(), 8, s8, s9);
    RunNext(p, mode, d, Start(), 9, s9, s10);
    RunNext(p, mode, d, Start(), 10, s10, s11);
    RunNext(p, mode, d, Start(), 11, s11, s12);
  }

  lemma MeetsBoundary(captured: bool)
    ensures var st := AfterResume(captured, [OUTER, AfterClause(0)], Return(Unit)); AtBoundary(st) && Bounding(st) == 0 && AtStake(st) == [CLEANUP]
  {
    AtStakeIs();
    var k := Bounds(captured) + [OUTER, AfterClause(0)];
    assert k[|k| - 1] == AfterClause(0);
  }

  /** Captured, the abandoned slice keeps the one with the cleanup owned. */
  lemma CapturedOwned()
    ensures Owned(AfterResume(true, [OUTER, AfterClause(0)], Return(Unit)), 0)
  {
    var st := AfterResume(true, [OUTER, AfterClause(0)], Return(Unit));
    assert st.kont[1] == AfterClause(2) && st.slices[2].seg[1] == Ret(2, 5, 10);
    assert 0 in Names(st.frames[2][0].value) && NamedInSlots(0, st.frames[2]);
    forall a | Closed(st, a)
      ensures Named(st, a, 0)
    {
      assert Keeps(a, st.kont[1]) && KeepsAll(a, st.slices[2].seg);
      assert Keeps(a, st.slices[2].seg[1]) && 2 in a.frames;
    }
  }

  /** Skipped, or with nothing but its cleanups, it does not. */
  lemma SkippedUnowned(st: State)
    requires st.frames == AfterResume(false, [], Faulted).frames && st.focus == Return(Unit)
    requires |st.slices| == 3 && st.slices[0] == INNERMOST && st.slices[1].seg == CLAUSE.seg && st.slices[2].seg == []
    requires st.kont in {[AfterClause(1), OUTER, AfterClause(0)], [AfterClause(1), AfterClause(2), OUTER, AfterClause(0)]}
    ensures !Owned(st, 0)
  {
    var alive := Alive({1}, {0, 1, 2});
    assert ClauseNames(OUTER.clauses) == {} && ClauseNames(INNER.clauses) == {};
    assert KNames(OUTER) == {} && KNames(INNER) == {} && KNames(Defer(CLEANUP)) == {} && KNames(Ret(1, 0, 6)) == {};
    hide KNames, Names;
    assert Closed(st, alive) && !Named(st, alive, 0) by {
      OneNames(st.kont, st.slices, alive);
    }
    hide Closed, Named;
  }

  lemma OneNames(kont: seq<K>, slices: seq<Slice>, a: Alive)
    requires a == Alive({1}, {0, 1, 2})
    requires |slices| == 3 && slices[0] == INNERMOST && slices[1].seg == CLAUSE.seg && slices[2].seg == []
    requires kont in {[AfterClause(1), OUTER, AfterClause(0)], [AfterClause(1), AfterClause(2), OUTER, AfterClause(0)]}
    ensures KeepsAll(a, kont) && !NamedIn(0, kont) && forall r :: 0 <= r < 3 ==> KeepsAll(a, slices[r].seg) && !NamedIn(0, slices[r].seg)
  {
    assert ClauseNames(OUTER.clauses) == {} && ClauseNames(INNER.clauses) == {};
  }

  // ---- the ends -----------------------------------------------------------

  /** The boundary passed with its slice let go: the cleanup runs, and is seen. */
  lemma SkippedCleans(ask: Ask, any: Ask)
    requires !ask.owned
    ensures var p, o, a, t, d := Losing(), OUTER, AfterClause(0), ThunkRet(Unit), Defer(CLEANUP);
            var s13 := AfterResume(false, [o, t, d], Return(Unit));
            var s14 := AfterResume(false, [o, t, t], Run(8, 12)).(frames := s13.frames + [[]]);
            && Step(p, COPIES, AfterResume(false, [o, a], Return(Unit)), ask) == s13 && Step(p, COPIES, s13, any) == s14
            && Step(p, COPIES, s14, any).trace == [(Data(5, []), Unit)]
  {
    var o, a, b, t, d := OUTER, AfterClause(0), AfterClause(1), ThunkRet(Unit), Defer(CLEANUP);
    AtStakeIs();
    hide Defers;
    assert Deferred([CLEANUP]) == [d] && Written([], map[]) == [];
    assert [b] + [o, a] == [b, o, a] && [b] + [o, t, d] == [b, o, t, d] && [b] + [o, t, t] == [b, o, t, t];
    assert [b, o, a][..2] == [b, o] && [b, o] + [t] + [d] == [b, o, t, d] && [b, o, t, d][..3] == [b, o, t] && [b, o, t] + [t] == [b, o, t, t];
  }

  lemma SkippedRuns()
    ensures RunBy(Losing(), COPIES, Counts(Losing()), Start(), 15).trace == [(Data(5, []), Unit)]
  {
    var p, d, o, t := Losing(), Counts(Losing()), OUTER, ThunkRet(Unit);
    var s12, s13 := AfterResume(false, [o, AfterClause(0)], Return(Unit)), AfterResume(false, [o, t, Defer(CLEANUP)], Return(Unit));
    var s14 := AfterResume(false, [o, t, t], Run(8, 12)).(frames := s13.frames + [[]]);
    assert !d(s12).owned by {
      MeetsBoundary(false);
      assert s12.kont == [AfterClause(1), OUTER, AfterClause(0)];
      SkippedUnowned(s12);
      hide Owned, AfterResume;
    }
    assert ModeOf(false) == COPIES;
    hide *;
    RunMeets(false);
    SkippedCleans(d(s12), d(s13));
    SkippedCleans(d(s12), d(s14));
    RunNext(p, COPIES, d, Start(), 12, s12, s13);
    RunNext(p, COPIES, d, Start(), 13, s13, s14);
    RunNext(p, COPIES, d, Start(), 14, s14, Step(p, COPIES, s14, d(s14)));
  }

  /** After the handlers: one more activation, and what is left of the stack. */
  function Late(kont: seq<K>, focus: Focus): State {
    State(AfterResume(true, [], Faulted).frames + [[U]], AfterResume(true, [], Faulted).slices, kont, focus, [])
  }

  /** The boundary passed with its slice owned: the run goes on to its end. */
  lemma CapturedGoesOn(ask: Ask, any: Ask)
    requires ask.owned
    ensures var p, o, a, b, c := Losing(), OUTER, AfterClause(0), AfterClause(1), AfterClause(2);
            && Step(p, CAPTURES, AfterResume(true, [o, a], Return(Unit)), ask) == AfterResume(true, [o], Return(Unit))
            && Step(p, CAPTURES, AfterResume(true, [o], Return(Unit)), any) == Late([b, c], Run(8, 13))
            && Step(p, CAPTURES, Late([b, c], Run(8, 13)), any) == Late([b, c], Return(Unit))
  {
    var o, a, b, c := OUTER, AfterClause(0), AfterClause(1), AfterClause(2);
    assert Written([U], map[]) == [U];
    assert [b, c] + [o, a] == [b, c, o, a] && [b, c] + [o] == [b, c, o] && [b, c] + [] == [b, c];
    assert [b, c, o, a][..3] == [b, c, o] && [b, c, o][..2] == [b, c];
    hide Defers;
  }

  lemma LostPassed(ask: Ask, any: Ask)
    requires !ask.owned
    ensures var p, b, c, t := Losing(), AfterClause(1), AfterClause(2), ThunkRet(Unit);
            && Step(p, CAPTURES, Late([b, c], Return(Unit)), ask) == Late([b, t], Return(Unit))
            && Step(p, CAPTURES, Late([b, t], Return(Unit)), any) == Late([b], Return(Unit))
  {
    var b, c, t := AfterClause(1), AfterClause(2), ThunkRet(Unit);
    LostFound();
    hide Defers, PromptFor, Losing;
    assert Deferred([]) == [] && [b] + [t] + [] == [b, t];
    assert [b, c][..1] == [b] && [b, t][..1] == [b];
  }

  lemma CapturedEnds(any: Ask)
    ensures var p, b := Losing(), AfterClause(1);
            && Step(p, CAPTURES, Late([b], Return(Unit)), any) == Late([], Return(Unit))
            && Step(p, CAPTURES, Late([], Return(Unit)), any) == Late([], Stopped(Unit))
  {
    hide Defers, PromptFor, Losing, Deferred;
    assert [AfterClause(1)][..0] == [];
  }

  lemma LostUnowned()
    ensures var st := Late([AfterClause(1), AfterClause(2)], Return(Unit)); AtBoundary(st) && Bounding(st) == 2 && !Owned(st, 2)
  {
    var st, alive := Late([AfterClause(1), AfterClause(2)], Return(Unit)), Alive({1, 2}, {0, 1, 2});
    NoNames();
    assert st.frames[1] == [U, None] && st.frames[2] == [Some(Res(0)), None];
    hide KNames;
    LateKeeps(st, alive);
    hide KeepsAll, NamedIn, KeepsSlots, NamedInSlots;
    assert Closed(st, alive) && !Named(st, alive, 2);
    hide Closed, Named;
  }

  lemma NoNames()
    ensures KNames(OUTER) == {} && KNames(INNER) == {} && KNames(LOST) == {} && KNames(Defer(CLEANUP)) == {}
    ensures KNames(Ret(1, 0, 6)) == {} && KNames(Ret(2, 5, 10)) == {} && forall r: nat :: KNames(AfterClause(r)) == {}
  {
    assert ClauseNames(OUTER.clauses) == {} && ClauseNames(INNER.clauses) == {} && ClauseNames(LOST.clauses) == {};
  }

  lemma LateKeeps(st: State, a: Alive)
    requires st == Late([AfterClause(1), AfterClause(2)], Return(Unit)) && a == Alive({1, 2}, {0, 1, 2})
    ensures KeepsAll(a, st.kont) && !NamedIn(2, st.kont)
    ensures forall r :: 0 <= r < 3 ==> KeepsAll(a, st.slices[r].seg) && !NamedIn(2, st.slices[r].seg)
    ensures forall f :: f == 1 || f == 2 ==> KeepsSlots(a, st.frames[f]) && !NamedInSlots(2, st.frames[f])
  {
    NoNames();
    assert st.frames[1] == [U, None] && st.frames[2] == [Some(Res(0)), None];
    assert st.slices[0].seg == INNERMOST.seg && st.slices[1].seg == CLAUSE.seg && st.slices[2].seg == [LOST, Ret(2, 5, 10)];
    hide KNames;
  }

  /** The capturing machine ends without having run the cleanup. */
  lemma CapturedRuns()
    ensures RunBy(Losing(), CAPTURES, Counts(Losing()), Start(), 19) == Late([], Stopped(Unit))
  {
    var p, d, o, b, c, t := Losing(), Counts(Losing()), OUTER, AfterClause(1), AfterClause(2), ThunkRet(Unit);
    var s12, s13 := AfterResume(true, [o, AfterClause(0)], Return(Unit)), AfterResume(true, [o], Return(Unit));
    var s14, s15, s16 := Late([b, c], Run(8, 13)), Late([b, c], Return(Unit)), Late([b, t], Return(Unit));
    var s17, s18 := Late([b], Return(Unit)), Late([], Return(Unit));
    assert d(s12).owned by {
      MeetsBoundary(true);
      CapturedOwned();
      hide Owned, AfterResume;
    }
    assert !d(s15).owned by {
      LostUnowned();
      hide Owned, Late;
    }
    assert ModeOf(true) == CAPTURES;
    hide *;
    RunMeets(true);
    CapturedGoesOn(d(s12), d(s13));
    CapturedGoesOn(d(s12), d(s14));
    LostPassed(d(s15), d(s16));
    CapturedEnds(d(s17));
    CapturedEnds(d(s18));
    RunNext(p, CAPTURES, d, Start(), 12, s12, s13);
    RunNext(p, CAPTURES, d, Start(), 13, s13, s14);
    RunNext(p, CAPTURES, d, Start(), 14, s14, s15);
    RunNext(p, CAPTURES, d, Start(), 15, s15, s16);
    RunNext(p, CAPTURES, d, Start(), 16, s16, s17);
    RunNext(p, CAPTURES, d, Start(), 17, s17, s18);
    RunNext(p, CAPTURES, d, Start(), 18, s18, Late([], Stopped(Unit)));
  }

  /** A program on which skipping is not capturing: the capturing machine ends with
      nothing applied, and from its fifteenth step on the skipping machine has applied
      something. */
  lemma SkippingRunsCapturingDoesNot(n: nat)
    requires n >= 15
    ensures var p := Losing();
            !SeenAlike(RunBy(p, COPIES, Counts(p), Start(), n), RunBy(p, CAPTURES, Counts(p), Start(), 19))
            && RunBy(p, CAPTURES, Counts(p), Start(), 19).focus == Stopped(Unit)
  {
    SkippedRuns();
    CapturedRuns();
    var p := Losing();
    hide RunBy, Counts;
    TraceGrows(p, COPIES, Counts(p), RunBy(p, COPIES, Counts(p), Start(), 15), n - 15);
    RunOn(p, COPIES, Counts(p), Start(), 15, n - 15);
  }

  // ---- and the run meets the condition until then -------------------------

  /** A state off the boundaries, from which a step leaves `dead'` dead. */
  ghost predicate Leaves(st: State, dead: set<nat>, dead': set<nat>) {
    !AtBoundary(st) && NextDead(Losing(), st, dead) == dead'
  }

  lemma CleanNext(st: State, dead: set<nat>, dead': set<nat>, n: nat)
    requires Leaves(st, dead, dead') && Clean(Losing(), Captures(Losing(), st), dead', n)
    ensures Clean(Losing(), st, dead, n + 1)
    ensures DeadAfter(Losing(), st, dead, n + 1) == DeadAfter(Losing(), Captures(Losing(), st), dead', n)
  {
    hide Step, Counts, Losing, NextDead;
  }

  lemma EarlyLeaves()
    ensures Leaves(Start(), {}, {}) && Leaves(Installed([OUTER], 1), {}, {}) && Leaves(Installed([OUTER, INNER], 2), {}, {})
    ensures Leaves(InClause([OUTER, AfterClause(0)], 4), {}, {})
    ensures Leaves(InOuter([AfterClause(1)], 7), {}, {}) && Leaves(InOuter([AfterClause(1), LOST], 8), {}, {})
  {
    hide PromptFor;
  }

  lemma PerformsLeave()
    ensures Leaves(Installed([OUTER, INNER, Defer(CLEANUP)], 3), {}, {}) && Leaves(InClause([OUTER, AfterClause(0), Ret(1, 0, 6)], 5), {}, {})
    ensures Leaves(InOuter([AfterClause(1), LOST, Ret(2, 5, 10)], 9), {}, {2})
  {
    LostFound();
    var o, i, d, a, r := OUTER, INNER, Defer(CLEANUP), AfterClause(0), Ret(1, 0, 6);
    PromptIn([o], i, 1);
    PromptIn([o, i], d, 1);
    assert [o, i] + [d] == [o, i, d] && [o] + [i] == [o, i];
    assert ClauseFor(i.clauses, 1) == Some(i.clauses[0]) && ClauseFor(o.clauses, 0) == Some(o.clauses[0]);
    PromptIn([], o, 0);
    PromptIn([o], a, 0);
    PromptIn([o, a], r, 0);
    assert [o, a] + [r] == [o, a, r] && [o] + [a] == [o, a] && [] + [o] == [o];
    hide PromptFor, ClauseFor, Defers;
    var none: set<nat> := {};
    assert none + {2} == {2};
  }

  lemma LateLeaves()
    ensures Leaves(InNever(true), {2}, {2})
    ensures var o, a := OUTER, AfterClause(0);
            Leaves(AfterResume(true, [o, a, Ret(5, 0, 6)], Return(Unit)), {2}, {2}) && Leaves(AfterResume(true, [o, a], Run(5, 6)), {2}, {2})
  {
    var k := Bounds(true) + [OUTER, AfterClause(0), Ret(5, 0, 6)];
    assert k[|k| - 1] == Ret(5, 0, 6);
    hide PromptFor;
  }

  lemma CleanEnds(st: State, dead: set<nat>)
    ensures Clean(Losing(), st, dead, 0) && DeadAfter(Losing(), st, dead, 0) == dead
  {
  }

  /** Up to that boundary the run meets the condition under which skipping is capturing;
      it is there that the boundary is spoiled. */
  lemma LosingIsClean()
    ensures var p, st := Losing(), Start(); NoForging(p) && Starts(st) && Clean(p, st, {}, 12) && DeadAfter(p, st, {}, 12) == {2}
    ensures var y := RunBy(Losing(), CAPTURES, Counts(Losing()), Start(), 12); AtBoundary(y) && Bounding(y) == 0 && !Unspoiled(y, {2})
  {
    var p, d, o, i, c, a, b, l := Losing(), Counts(Losing()), OUTER, INNER, Defer(CLEANUP), AfterClause(0), AfterClause(1), LOST;
    var s0, s1, s2, s3 := Start(), Installed([o], 1), Installed([o, i], 2), Installed([o, i, c], 3);
    var s4, s5, s6 := InClause([o, a], 4), InClause([o, a, Ret(1, 0, 6)], 5), InOuter([b], 7);
    var s7, s8, s9 := InOuter([b, l], 8), InOuter([b, l, Ret(2, 5, 10)], 9), InNever(true);
    var s10, s11, s12 := AfterResume(true, [o, a, Ret(5, 0, 6)], Return(Unit)), AfterResume(true, [o, a], Run(5, 6)), AfterResume(true, [o, a], Return(Unit));
    assert ModeOf(true) == CAPTURES;
    hide *;
    RunMeets(true);
    SpoiledThere();
    LosingIsSound();
    CleanEnds(s12, {2});
    LateLeaves();
    PerformsLeave();
    EarlyLeaves();
    LosingInstalls(CAPTURES, d(s0));
    LosingInstalls(CAPTURES, d(s1));
    LosingInstalls(CAPTURES, d(s2));
    PerformInner(CAPTURES, d(s3));
    PerformInner(CAPTURES, d(s4));
    PerformPassing(CAPTURES, d(s5));
    InstallLost(CAPTURES, d(s6));
    InstallLost(CAPTURES, d(s7));
    PerformNever(true, d(s8));
    ResumeCopied(true, d(s9));
    ResumeCopied(true, d(s10));
    ResumeCopied(true, d(s11));
    CleanBack(s11, s12, {2}, {2}, 0);
    CleanBack(s10, s11, {2}, {2}, 1);
    CleanBack(s9, s10, {2}, {2}, 2);
    CleanBack(s8, s9, {}, {2}, 3);
    CleanBack(s7, s8, {}, {}, 4);
    CleanBack(s6, s7, {}, {}, 5);
    CleanBack(s5, s6, {}, {}, 6);
    CleanBack(s4, s5, {}, {}, 7);
    CleanBack(s3, s4, {}, {}, 8);
    CleanBack(s2, s3, {}, {}, 9);
    CleanBack(s1, s2, {}, {}, 10);
    CleanBack(s0, s1, {}, {}, 11);
  }

  lemma CleanBack(st: State, next: State, dead: set<nat>, dead': set<nat>, n: nat)
    requires Step(Losing(), CAPTURES, st, Counts(Losing())(st)) == next && Leaves(st, dead, dead')
    requires Clean(Losing(), next, dead', n) && DeadAfter(Losing(), next, dead', n) == {2}
    ensures Clean(Losing(), st, dead, n + 1) && DeadAfter(Losing(), st, dead, n + 1) == {2}
  {
    CapturesIs(Losing(), st);
    hide *;
    CleanNext(st, dead, dead', n);
  }

  lemma SpoiledThere()
    ensures var y := AfterResume(true, [OUTER, AfterClause(0)], Return(Unit)); AtBoundary(y) && Bounding(y) == 0 && !Unspoiled(y, {2})
  {
    var y := AfterResume(true, [OUTER, AfterClause(0)], Return(Unit));
    MeetsBoundary(true);
    CapturedOwned();
    StrippedThere();
    hide Owned, AfterResume, Stripped;
  }

  lemma StrippedThere()
    ensures !Owned(Stripped(AfterResume(true, [OUTER, AfterClause(0)], Return(Unit)), {2}), 0)
  {
    var y := AfterResume(true, [OUTER, AfterClause(0)], Return(Unit));
    var z := Stripped(y, {2});
    LostFound();
    hide Defers;
    assert Deferred([]) == [];
    assert y.kont == [AfterClause(1), AfterClause(2), OUTER, AfterClause(0)];
    SkippedUnowned(z);
  }
}
