/** Moving what is held alone is copying, with every boundary decided by the counts of the
    machine that meets it: the runs are seen alike as long as no boundary's slice is named
    only by what a moved slice held, and at the first where one is, they part. */
module Agreeing {
  import opened Common
  import opened Reified
  import opened Moving
  import opened Ownership
  import opened Unowned
  import opened Retaining

  // ---- the condition, on the moving machine alone -------------------------

  /** The boundary being passed, if there is a cleanup at stake, is of a slice that is not
      named only by what moved slices held. */
  ghost predicate LetsGo(st: State, left: map<nat, Left>) {
    AtBoundary(st) && AtStake(st) != [] && OwnedYet(st, left, Bounding(st)) ==> Owned(st, Bounding(st))
  }

  /** The moving machine's next state, by its own counts. */
  ghost function Moves(p: Program, st: State): State {
    Step(p, MOVES, st, Counts(p)(st))
  }

  /** For `n` steps the slot premise holds, split activations keep their resumptions, and
      boundaries let go. */
  ghost predicate Clear(p: Program, st: State, split: set<nat>, left: map<nat, Left>, n: nat)
    decreases n
  {
    && Polite(p, st) && Steady(p, st, split)
    && (n > 0 ==> LetsGo(st, left) && Clear(p, Moves(p, st), NextSplit(p, st, Counts(p)(st), split), NextLeft(p, st, Counts(p)(st), left), n - 1))
  }

  /** What moved slices held, after `n` steps. */
  ghost function LeftAfter(p: Program, st: State, left: map<nat, Left>, n: nat): map<nat, Left>
    decreases n
  {
    if n == 0 then left else LeftAfter(p, Moves(p, st), NextLeft(p, st, Counts(p)(st), left), n - 1)
  }

  ghost predicate Sound(p: Program) {
    LiveIsSound(p) && NoForging(p) && NoHoarding(p)
  }

  // ---- two machines, each by its own counts -------------------------------

  ghost predicate Related(p: Program, m: State, c: State, back: seq<nat>, split: set<nat>, left: map<nat, Left>) {
    Sim(p, m, c, back) && Faithful(m, c, back, split, left) && MovedUnowned(m)
  }

  lemma SimBounds(p: Program, m: State, c: State, back: seq<nat>)
    requires Sim(p, m, c, back)
    ensures InBounds(m)
  {
    var w := Pair(m, c, back);
    forall i | 0 <= i < |m.kont|
      ensures Bounded(m.kont[i], |m.frames|)
    {
      assert Twin(p, w, m.kont[i], c.kont[i]);
    }
    forall r, i | 0 <= r < |m.slices| && 0 <= i < |m.slices[r].seg|
      ensures Bounded(m.slices[r].seg[i], |m.frames|)
    {
      assert SliceAlike(p, w, m.slices[r], c.slices[r]);
      assert Twin(p, w, m.slices[r].seg[i], c.slices[r].seg[i]);
    }
    forall r | 0 <= r < |m.slices| && m.slices[r].gone
      ensures m.slices[r].seg == []
    {
      assert SliceAlike(p, w, m.slices[r], c.slices[r]);
    }
  }

  /** A step of both, told alike where it matters. */
  lemma StepRelated(p: Program, m: State, c: State, back: seq<nat>, split: set<nat>, left: map<nat, Left>, a: Ask, b: Ask)
    requires Sound(p) && Related(p, m, c, back, split, left) && Polite(p, m) && Steady(p, m, split)
    requires (a.unique ==> Sole(p, m)) && (AtBoundary(m) ==> a.owned == b.owned)
    ensures Related(p, Step(p, MOVES, m, a), Step(p, COPIES, c, b), NextBack(p, m, a, back), NextSplit(p, m, a, split), NextLeft(p, m, a, left))
  {
    hide Sim, Faithful, MovedUnowned, Polite, Steady, LiveIsSound, NoForging, NoHoarding, Step, Sole, NextBack, NextSplit, NextLeft, AtBoundary;
    SimBounds(p, m, c, back);
    NoneResumed(p, m);
    var back' := AnyAsk(p, m, c, back, a, b);
    SameTold(p, m, c, back, a, b);
    StepFaithful(p, m, c, back, split, left, a);
    MovedStays(p, m, a);
  }

  /** They meet boundaries together. */
  lemma BothAtBoundary(p: Program, m: State, c: State, back: seq<nat>)
    requires Sim(p, m, c, back)
    ensures AtBoundary(m) <==> AtBoundary(c)
    ensures AtBoundary(m) ==> Bounding(m) == Bounding(c) && AtStake(m) == AtStake(c)
  {
    if |m.kont| > 0 {
      var n := |m.kont| - 1;
      assert Twin(p, Pair(m, c, back), m.kont[n], c.kont[n]);
      if m.kont[n].AfterClause? && m.kont[n].slice < |m.slices| {
        assert SliceAlike(p, Pair(m, c, back), m.slices[m.kont[n].slice], c.slices[m.kont[n].slice]);
        if AtBoundary(m) {
          BoundaryTwin(p, m, c, back);
        }
      }
    }
  }

  lemma SameTold(p: Program, m: State, c: State, back: seq<nat>, a: Ask, b: Ask)
    requires Sim(p, m, c, back) && (AtBoundary(m) ==> a.owned == b.owned)
    ensures Step(p, COPIES, c, a) == Step(p, COPIES, c, b)
  {
    BothAtBoundary(p, m, c, back);
    hide Sim;
    ToldOnly(p, c, a, b);
  }

  /** The copying machine asks only at boundaries. */
  lemma ToldOnly(p: Program, c: State, a: Ask, b: Ask)
    requires AtBoundary(c) ==> a.owned == b.owned
    ensures Step(p, COPIES, c, a) == Step(p, COPIES, c, b)
  {
  }

  /** Where the counts agree, or there is a cleanup at stake, one step of each. */
  lemma OneEach(p: Program, m: State, c: State, back: seq<nat>, split: set<nat>, left: map<nat, Left>)
    requires Sound(p) && Related(p, m, c, back, split, left) && Polite(p, m) && Steady(p, m, split) && LetsGo(m, left)
    requires AtBoundary(m) && AtStake(m) == [] ==> Counts(p)(m).owned == Counts(p)(c).owned
    ensures Related(p, Moves(p, m), Step(p, COPIES, c, Counts(p)(c)), NextBack(p, m, Counts(p)(m), back),
                    NextSplit(p, m, Counts(p)(m), split), NextLeft(p, m, Counts(p)(m), left))
  {
    var a, b := Counts(p)(m), Counts(p)(c);
    BothAtBoundary(p, m, c, back);
    assert AtBoundary(m) ==> a.owned == b.owned by {
      if AtBoundary(m) {
        hide Owned, OwnedYet, AtBoundary, AtStake;
        OwnedAlike(p, m, c, back, split, left, Bounding(m));
      }
    }
    hide Sound, Related, Polite, Steady, LetsGo;
    StepRelated(p, m, c, back, split, left, a, b);
  }

  /** Passing a boundary with nothing at stake: two steps of the machine that finds its
      slice let go, one of the one that finds it owned. */
  lemma TwoAndOne(p: Program, m: State, c: State, back: seq<nat>, split: set<nat>, left: map<nat, Left>)
    requires Sound(p) && Related(p, m, c, back, split, left) && Polite(p, m) && Steady(p, m, split)
    requires AtBoundary(m) && AtStake(m) == [] && Counts(p)(m).owned != Counts(p)(c).owned
    ensures !Counts(p)(m).owned && Related(p, Moves(p, Moves(p, m)), Step(p, COPIES, c, Counts(p)(c)), back, split, left)
  {
    var a, b, o := Counts(p)(m), Counts(p)(c), Ask(true, false);
    BothAtBoundary(p, m, c, back);
    assert !a.owned && b.owned by {
      hide Owned, AtBoundary, AtStake;
      OwnedAlike(p, m, c, back, split, left, Bounding(m));
    }
    NothingAtStake(p, MOVES, m, a, Counts(p)(Moves(p, m)), o);
    SilentSteps(p, m, a, o);
    hide Sound, Related, Polite, Steady, Counts;
    assert b.owned == o.owned;
    StepRelated(p, m, c, back, split, left, o, b);
    assert NextBack(p, m, o, back) == back;
  }

  lemma SilentSteps(p: Program, m: State, a: Ask, o: Ask)
    requires AtBoundary(m) && AtStake(m) == [] && !a.owned && o.owned
    ensures Resumed(p, m).None? && Resumed(p, Step(p, MOVES, m, a)).None? && |Step(p, MOVES, m, o).frames| == |m.frames|
    ensures var next := Step(p, MOVES, m, a); |next.kont| == |m.kont| && next.kont[|m.kont| - 1] == ThunkRet(m.focus.v)
  {
    assert Deferred([]) == [];
  }

  // ---- whole runs ---------------------------------------------------------

  /** Each machine by its own counts: after any number of steps of the one that moves,
      or one more while it is passing a boundary, the one that copies has come as far. */
  lemma {:induction false} Together(p: Program, m: State, c: State, back: seq<nat>, split: set<nat>, left: map<nat, Left>, n: nat)
    returns (more: nat, k: nat, back': seq<nat>, split': set<nat>)
    requires Sound(p) && Related(p, m, c, back, split, left) && Clear(p, m, split, left, n)
    ensures n <= more <= n + 1 && k <= more <= 2 * k && (more > n ==> Passing(RunBy(p, MOVES, Counts(p), m, n)))
    ensures Related(p, RunBy(p, MOVES, Counts(p), m, more), RunBy(p, COPIES, Counts(p), c, k), back', split', LeftAfter(p, m, left, more))
    decreases n
  {
    hide Sound, Related, Polite, Steady, LetsGo, Counts, AtBoundary, AtStake, NextBack, NextSplit, NextLeft, Step;
    if n == 0 {
      more, k, back', split' := 0, 0, back, split;
    } else if AtBoundary(m) && AtStake(m) == [] && Counts(p)(m).owned != Counts(p)(c).owned {
      more, k, back', split' := PassedTogether(p, m, c, back, split, left, n);
    } else {
      OneEach(p, m, c, back, split, left);
      more, k, back', split' := Together(p, Moves(p, m), Step(p, COPIES, c, Counts(p)(c)), NextBack(p, m, Counts(p)(m), back),
                                         NextSplit(p, m, Counts(p)(m), split), NextLeft(p, m, Counts(p)(m), left), n - 1);
      more, k := more + 1, k + 1;
    }
  }

  lemma {:induction false} PassedTogether(p: Program, m: State, c: State, back: seq<nat>, split: set<nat>, left: map<nat, Left>, n: nat)
    returns (more: nat, k: nat, back': seq<nat>, split': set<nat>)
    requires Sound(p) && Related(p, m, c, back, split, left) && Clear(p, m, split, left, n) && n > 0
    requires AtBoundary(m) && AtStake(m) == [] && Counts(p)(m).owned != Counts(p)(c).owned
    ensures n <= more <= n + 1 && k <= more <= 2 * k && (more > n ==> Passing(RunBy(p, MOVES, Counts(p), m, n)))
    ensures Related(p, RunBy(p, MOVES, Counts(p), m, more), RunBy(p, COPIES, Counts(p), c, k), back', split', LeftAfter(p, m, left, more))
    decreases n, 0
  {
    hide *;
    Passed(p, m, c, back, split, left, n);
    var m2, c1 := Moves(p, Moves(p, m)), Step(p, COPIES, c, Counts(p)(c));
    if n == 1 {
      more, k, back', split' := 0, 0, back, split;
      NoMove(p, m2, left);
      NoCopy(p, c1);
    } else {
      more, k, back', split' := Together(p, m2, c1, back, split, left, n - 2);
      PassedRun(p, m, c, left, n - 2, 0);
    }
    PassedRun(p, m, c, left, more, k);
    more, k := more + 2, k + 1;
  }

  lemma Passed(p: Program, m: State, c: State, back: seq<nat>, split: set<nat>, left: map<nat, Left>, n: nat)
    requires Sound(p) && Related(p, m, c, back, split, left) && Clear(p, m, split, left, n) && n > 0
    requires AtBoundary(m) && AtStake(m) == [] && Counts(p)(m).owned != Counts(p)(c).owned
    ensures Related(p, Moves(p, Moves(p, m)), Step(p, COPIES, c, Counts(p)(c)), back, split, left)
    ensures n > 1 ==> Clear(p, Moves(p, Moves(p, m)), split, left, n - 2)
    ensures Passing(RunBy(p, MOVES, Counts(p), m, 1)) && NextLeft(p, m, Counts(p)(m), left) == left
    ensures NextLeft(p, Moves(p, m), Counts(p)(Moves(p, m)), left) == left
  {
    assert Polite(p, m) && Steady(p, m, split);
    var m1 := Moves(p, m);
    OneMove(p, m, left, 0);
    assert m1 == Step(p, MOVES, m, Counts(p)(m));
    assert RunBy(p, MOVES, Counts(p), m1, 0) == m1;
    hide *;
    TwoAndOne(p, m, c, back, split, left);
    SilentPass(p, m, Counts(p)(m), split, left, Counts(p)(m1));
    ClearOn(p, m, split, left, n);
    if n > 1 {
      ClearOn(p, m1, split, left, n - 1);
    }
  }

  lemma PassedRun(p: Program, m: State, c: State, left: map<nat, Left>, n: nat, k: nat)
    requires NextLeft(p, m, Counts(p)(m), left) == left && NextLeft(p, Moves(p, m), Counts(p)(Moves(p, m)), left) == left
    ensures RunBy(p, MOVES, Counts(p), m, n + 2) == RunBy(p, MOVES, Counts(p), Moves(p, Moves(p, m)), n)
    ensures LeftAfter(p, m, left, n + 2) == LeftAfter(p, Moves(p, Moves(p, m)), left, n)
    ensures RunBy(p, COPIES, Counts(p), c, k + 1) == RunBy(p, COPIES, Counts(p), Step(p, COPIES, c, Counts(p)(c)), k)
  {
    hide *;
    OneMove(p, m, left, n + 1);
    OneMove(p, Moves(p, m), left, n);
    OneCopy(p, c, k);
  }

  lemma OneMove(p: Program, m: State, left: map<nat, Left>, n: nat)
    ensures RunBy(p, MOVES, Counts(p), m, n + 1) == RunBy(p, MOVES, Counts(p), Moves(p, m), n)
    ensures LeftAfter(p, m, left, n + 1) == LeftAfter(p, Moves(p, m), NextLeft(p, m, Counts(p)(m), left), n)
  {
    hide Counts, Step, NextLeft;
  }

  lemma ClearOn(p: Program, m: State, split: set<nat>, left: map<nat, Left>, n: nat)
    requires Clear(p, m, split, left, n) && n > 0
    ensures Clear(p, Moves(p, m), NextSplit(p, m, Counts(p)(m), split), NextLeft(p, m, Counts(p)(m), left), n - 1)
  {
    hide Counts, Step, NextLeft, NextSplit, Polite, Steady, LetsGo;
  }

  lemma NoMove(p: Program, m: State, left: map<nat, Left>)
    ensures RunBy(p, MOVES, Counts(p), m, 0) == m && LeftAfter(p, m, left, 0) == left
  {
    hide Counts, Step, NextLeft;
  }

  lemma OneCopy(p: Program, c: State, n: nat)
    ensures RunBy(p, COPIES, Counts(p), c, n + 1) == RunBy(p, COPIES, Counts(p), Step(p, COPIES, c, Counts(p)(c)), n)
  {
    hide Counts, Step;
  }

  lemma NoCopy(p: Program, c: State)
    ensures RunBy(p, COPIES, Counts(p), c, 0) == c
  {
    hide Counts, Step;
  }

  /** Nothing is resumed, and so nothing split or left, while passing. */
  lemma SilentPass(p: Program, m: State, a: Ask, split: set<nat>, left: map<nat, Left>, b: Ask)
    requires AtBoundary(m) && AtStake(m) == [] && !a.owned
    ensures var next := Step(p, MOVES, m, a);
            && NextSplit(p, m, a, split) == split && NextLeft(p, m, a, left) == left
            && NextSplit(p, next, b, split) == split && NextLeft(p, next, b, left) == left && Passing(next)
  {
    SilentSteps(p, m, a, Ask(true, false));
  }

  /** Nothing has been moved out yet. */
  predicate Unmoved(st: State) {
    forall r :: 0 <= r < |st.slices| ==> !(st.slices[r].gone && st.slices[r].used)
  }

  lemma StartRelated(p: Program, st: State, back: seq<nat>)
    requires InBounds(st) && Unmoved(st) && |back| == |st.frames| && forall g :: 0 <= g < |back| ==> back[g] == g
    ensures Related(p, st, st, back, {}, map[])
  {
    SelfSim(p, st, back);
    hide Sim, InBounds, Current, SameNames, Owned;
    forall g | 0 <= g < |back|
      ensures SameNames(st.frames[g], st.frames[g])
    {
      SameItself(st.frames[g]);
    }
  }

  /** How far the copying machine has come when the moving one has taken `n` steps. */
  lemma RunTogether(p: Program, st: State, n: nat) returns (more: nat, k: nat, back: seq<nat>, split: set<nat>)
    requires Sound(p) && InBounds(st) && Unmoved(st) && Clear(p, st, {}, map[], n)
    ensures n <= more <= n + 1 && k <= more <= 2 * k && (more > n ==> Passing(RunBy(p, MOVES, Counts(p), st, n)))
    ensures Related(p, RunBy(p, MOVES, Counts(p), st, more), RunBy(p, COPIES, Counts(p), st, k), back, split, LeftAfter(p, st, map[], more))
  {
    hide *;
    back := seq(|st.frames|, g => g);
    StartRelated(p, st, back);
    more, k, back, split := Together(p, st, st, back, {}, map[], n);
  }

  lemma RelatedSeen(p: Program, m: State, c: State, back: seq<nat>, split: set<nat>, left: map<nat, Left>)
    requires Related(p, m, c, back, split, left)
    ensures SeenAlike(m, c) && (Ended(m) <==> Ended(c))
  {
  }

  /** When a run that moves what its counts say is held alone ends, a run that always
      copies, by its own counts, ends seen alike. */
  lemma MovingIsCopyingByCounts(p: Program, st: State, n: nat) returns (k: nat)
    requires Sound(p) && InBounds(st) && Unmoved(st) && Clear(p, st, {}, map[], n) && Ended(RunBy(p, MOVES, Counts(p), st, n))
    ensures SeenAlike(RunBy(p, MOVES, Counts(p), st, n), RunBy(p, COPIES, Counts(p), st, k))
  {
    hide Sound, InBounds, Unmoved, Clear, RunBy, Related, LeftAfter;
    var more, l, back, split := RunTogether(p, st, n);
    k := l;
    RelatedSeen(p, RunBy(p, MOVES, Counts(p), st, n), RunBy(p, COPIES, Counts(p), st, k), back, split, LeftAfter(p, st, map[], n));
  }

  /** And the other way round. */
  lemma CopyingIsMovingByCounts(p: Program, st: State, k: nat) returns (n: nat)
    requires Sound(p) && InBounds(st) && Unmoved(st) && Ended(RunBy(p, COPIES, Counts(p), st, k))
    requires forall i: nat :: Clear(p, st, {}, map[], i)
    ensures SeenAlike(RunBy(p, MOVES, Counts(p), st, n), RunBy(p, COPIES, Counts(p), st, k))
  {
    hide Sound, InBounds, Unmoved, Clear, RunBy, Related, LeftAfter, Counts;
    var more, l, back, split := RunTogether(p, st, 2 * k);
    n := more;
    EndedStays(p, COPIES, Counts(p), RunBy(p, COPIES, Counts(p), st, k), l - k);
    RunOn(p, COPIES, Counts(p), st, k, l - k);
    RelatedSeen(p, RunBy(p, MOVES, Counts(p), st, n), RunBy(p, COPIES, Counts(p), st, l), back, split, LeftAfter(p, st, map[], n));
  }

  /** A boundary the moving machine comes to, the copying machine comes to, with the same
      cleanups at stake; and there the two decide alike exactly when the slice is not
      named only by what moved slices held. */
  lemma PartExactlyThere(p: Program, st: State, n: nat) returns (k: nat)
    requires Sound(p) && InBounds(st) && Unmoved(st) && Clear(p, st, {}, map[], n) && AtBoundary(RunBy(p, MOVES, Counts(p), st, n))
    ensures var m, c, left := RunBy(p, MOVES, Counts(p), st, n), RunBy(p, COPIES, Counts(p), st, k), LeftAfter(p, st, map[], n);
            && c.trace == m.trace && AtBoundary(c) && Bounding(c) == Bounding(m) && AtStake(c) == AtStake(m)
            && (Counts(p)(m).owned == Counts(p)(c).owned <==> (OwnedYet(m, left, Bounding(m)) ==> Owned(m, Bounding(m))))
  {
    hide Sound, InBounds, Unmoved, Clear, RunBy, LeftAfter, Owned, OwnedYet, Faithful, Matched, MovedUnowned, FocusAlike;
    var more, l, back, split := RunTogether(p, st, n);
    k := l;
    var m, c, left := RunBy(p, MOVES, Counts(p), st, n), RunBy(p, COPIES, Counts(p), st, k), LeftAfter(p, st, map[], n);
    BothAtBoundary(p, m, c, back);
    RelatedSeen(p, m, c, back, split, left);
    OwnedAlike(p, m, c, back, split, left, Bounding(m));
  }

  // ---- when nothing is left to name ---------------------------------------

  /** A moved slice that named nothing: neither its values nor its activations', and no
      boundary. */
  ghost predicate Bare(l: Left) {
    forall i :: 0 <= i < |l.seg| ==>
      && KNames(l.seg[i]) == {} && !l.seg[i].AfterClause?
      && (l.seg[i].Ret? && l.seg[i].frame < |l.frames| ==> forall j :: 0 <= j < |l.frames[l.seg[i].frame]| ==> SlotNames(l.frames[l.seg[i].frame], j) == {})
  }

  /** As long as no slice is moved that names another, every boundary lets go. */
  lemma BareLetsGo(st: State, left: map<nat, Left>)
    requires forall q :: q in left ==> Bare(left[q])
    ensures LetsGo(st, left)
  {
    hide AtStake, Owned, OwnedYet;
    if AtBoundary(st) && OwnedYet(st, left, Bounding(st)) {
      BareOwned(st, left, Bounding(st));
    }
  }

  lemma BareOwned(st: State, left: map<nat, Left>, r: nat)
    requires (forall q :: q in left ==> Bare(left[q])) && OwnedYet(st, left, r)
    ensures Owned(st, r)
  {
    forall a | Closed(st, a)
      ensures Named(st, a, r)
    {
      hide Closed, Named, Bare;
      forall q | q in left
        ensures KeepsLeft(a, left[q]) && !NamedLeft(r, left[q])
      {
        BareKeeps(a, left[q], r);
      }
    }
  }

  lemma BareKeeps(a: Alive, l: Left, r: nat)
    requires Bare(l)
    ensures KeepsLeft(a, l) && !NamedLeft(r, l)
  {
    hide KNames, Names, KeepsSlots, NamedInSlots;
    forall i | 0 <= i < |l.seg| && l.seg[i].Ret? && l.seg[i].frame < |l.frames|
      ensures KeepsSlots(a, l.frames[l.seg[i].frame]) && !NamedInSlots(r, l.frames[l.seg[i].frame])
    {
      KeepsBySlot(a, l.frames[l.seg[i].frame]);
      NamedBySlot(r, l.frames[l.seg[i].frame]);
    }
  }
}
