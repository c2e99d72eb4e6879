/** A clause that cannot resume: keeping only its slice's cleanups is capturing the
    slice, dropping the unread resumption and finding it abandoned at the boundary. */
module Skipping {
  import opened Common
  import opened Reified
  import opened Moving
  import opened Ownership

  /** Every clause captures; one that cannot resume drops its resumption as it is
      entered. */
  const CAPTURES: Mode := Mode(false, false)

  // ---- what names a slice -------------------------------------------------

  ghost predicate FreeFocus(f: Focus, bad: iset<nat>) {
    (f.Return? || f.Stopped?) ==> Free(Names(f.v), bad)
  }

  /** No value anywhere names a slice in `bad`. */
  ghost predicate Unnamed(st: State, bad: iset<nat>) {
    && (forall f :: 0 <= f < |st.frames| ==> FreeSlots(st.frames[f], bad))
    && FreeKs(st.kont, bad) && (forall r :: 0 <= r < |st.slices| ==> FreeKs(st.slices[r].seg, bad))
    && FreeFocus(st.focus, bad) && FreeTrace(st.trace, bad)
  }

  /** Boundaries name slices there are. */
  ghost predicate Numbered(ks: seq<K>, n: nat) {
    forall i :: 0 <= i < |ks| && ks[i].AfterClause? ==> ks[i].slice < n
  }

  /** The dead slices, and those still to come. */
  ghost function Bad(dead: set<nat>, n: nat): iset<nat> {
    iset r: nat | r in dead || r >= n
  }

  /** The slices of clauses that cannot resume: captured, never resumed, and named by
      nothing but boundaries. */
  ghost predicate Dead(x: State, dead: set<nat>) {
    && Unnamed(x, Bad(dead, |x.slices|))
    && (forall r :: r in dead ==> r < |x.slices| && !x.slices[r].used && !x.slices[r].gone)
    && Numbered(x.kont, |x.slices|) && (forall r :: 0 <= r < |x.slices| ==> Numbered(x.slices[r].seg, |x.slices|))
  }

  // ---- the same state without those slices --------------------------------

  /** A boundary of a dead slice is the cleanups the slice holds, or nothing. */
  function ImageOf(k: K, slices: seq<Slice>, dead: set<nat>): seq<K> {
    if k.AfterClause? && k.slice in dead && k.slice < |slices| then
      var ds := Defers(slices[k.slice].seg);
      if ds == [] then [] else [Cleanups(ds)]
    else [k]
  }

  function Image(ks: seq<K>, slices: seq<Slice>, dead: set<nat>): seq<K> {
    if |ks| == 0 then []
    else Image(ks[..|ks| - 1], slices, dead) + ImageOf(ks[|ks| - 1], slices, dead)
  }

  function SliceImage(s: Slice, r: nat, slices: seq<Slice>, dead: set<nat>): Slice {
    if r in dead then Slice([], false, true) else Slice(Image(s.seg, slices, dead), s.used, s.gone)
  }

  function SlicesImage(slices: seq<Slice>, dead: set<nat>): (r: seq<Slice>)
    ensures |r| == |slices|
  {
    seq(|slices|, r requires 0 <= r < |slices| => SliceImage(slices[r], r, slices, dead))
  }

  /** The skipping machine's state that `x` stands for. */
  function Without(x: State, dead: set<nat>): State {
    State(x.frames, SlicesImage(x.slices, dead), Image(x.kont, x.slices, dead), x.focus, x.trace)
  }

  // ---- images of stacks ---------------------------------------------------

  lemma {:induction false} ImageJoin(a: seq<K>, b: seq<K>, slices: seq<Slice>, dead: set<nat>)
    ensures Image(a + b, slices, dead) == Image(a, slices, dead) + Image(b, slices, dead)
    decreases |b|
  {
    hide ImageOf;
    if |b| == 0 {
      assert a + b == a;
    } else {
      ImageJoin(a, b[..|b| - 1], slices, dead);
      assert (a + b)[..|a + b| - 1] == a + b[..|b| - 1];
    }
  }

  lemma ImagePush(front: seq<K>, k: K, slices: seq<Slice>, dead: set<nat>)
    ensures Image(front + [k], slices, dead) == Image(front, slices, dead) + ImageOf(k, slices, dead)
  {
    hide ImageOf;
    assert (front + [k])[..|front|] == front;
  }

  lemma ImageOne(k: K, slices: seq<Slice>, dead: set<nat>)
    ensures Image([k], slices, dead) == ImageOf(k, slices, dead)
  {
    assert [k][..0] == [];
  }

  /** Frames that are no boundaries are their own image. */
  lemma {:induction false} ImageSelf(ks: seq<K>, slices: seq<Slice>, dead: set<nat>)
    requires forall i :: 0 <= i < |ks| ==> !ks[i].AfterClause?
    ensures Image(ks, slices, dead) == ks
    decreases |ks|
  {
    if |ks| > 0 {
      ImageSelf(ks[..|ks| - 1], slices, dead);
      assert ks == ks[..|ks| - 1] + [ks[|ks| - 1]];
    }
  }

  lemma {:induction false} DefersJoin(a: seq<K>, b: seq<K>)
    ensures Defers(a + b) == Defers(a) + Defers(b)
    decreases |b|
  {
    if |b| == 0 {
      assert a + b == a;
    } else {
      DefersJoin(a, b[..|b| - 1]);
      assert (a + b)[..|a + b| - 1] == a + b[..|b| - 1];
    }
  }

  /** An image holds the same cleanups. */
  lemma {:induction false} ImageDefers(ks: seq<K>, slices: seq<Slice>, dead: set<nat>)
    ensures Defers(Image(ks, slices, dead)) == Defers(ks)
    decreases |ks|
  {
    if |ks| > 0 {
      var k, front := ks[|ks| - 1], ks[..|ks| - 1];
      ImageDefers(front, slices, dead);
      DefersJoin(Image(front, slices, dead), ImageOf(k, slices, dead));
      OneDefer(k);
      if k.AfterClause? && k.slice in dead && k.slice < |slices| {
        OneDefer(Cleanups(Defers(slices[k.slice].seg)));
      }
    }
  }

  lemma OneDefer(k: K)
    ensures Defers([k]) == if k.Defer? then [k.cleanup] else []
  {
    assert [k][..0] == [];
  }

  lemma {:induction false} ImageMoved(ks: seq<K>, n: nat, slices: seq<Slice>, dead: set<nat>)
    ensures Image(MovedAll(ks, n), slices, dead) == MovedAll(Image(ks, slices, dead), n)
    decreases |ks|
  {
    if |ks| > 0 {
      var front, k := ks[..|ks| - 1], ks[|ks| - 1];
      ImageMoved(front, n, slices, dead);
      assert MovedAll(ks, n)[..|ks| - 1] == MovedAll(front, n) && MovedAll(ks, n)[|ks| - 1] == Moved(k, n);
      assert MovedAll(ImageOf(k, slices, dead), n) == ImageOf(Moved(k, n), slices, dead);
      assert MovedAll(Image(front, slices, dead) + ImageOf(k, slices, dead), n) == MovedAll(Image(front, slices, dead), n) + MovedAll(ImageOf(k, slices, dead), n);
    }
  }

  /** More slices, and changes to slices that are not dead, change no image. */
  lemma {:induction false} ImageKept(ks: seq<K>, slices: seq<Slice>, dead: set<nat>, slices': seq<Slice>, dead': set<nat>)
    requires Numbered(ks, |slices|) && |slices| <= |slices'|
    requires forall r :: 0 <= r < |slices| ==> (r in dead' <==> r in dead) && (r in dead ==> slices'[r].seg == slices[r].seg)
    ensures Image(ks, slices', dead') == Image(ks, slices, dead)
    decreases |ks|
  {
    if |ks| > 0 {
      ImageKept(ks[..|ks| - 1], slices, dead, slices', dead');
    }
  }

  lemma PromptPush(front: seq<K>, k: K, op: nat)
    ensures PromptFor(front + [k], op) ==
            if k.Prompt? && ClauseFor(k.clauses, op).Some? then Some((|front|, ClauseFor(k.clauses, op).value)) else PromptFor(front, op)
  {
    assert (front + [k])[..|front|] == front;
  }

  /** A prompt is found in an image where it is found in the stack. */
  lemma {:induction false} PromptImage(ks: seq<K>, op: nat, slices: seq<Slice>, dead: set<nat>)
    ensures PromptFor(ks, op).None? ==> PromptFor(Image(ks, slices, dead), op).None?
    ensures PromptFor(ks, op).Some? ==>
      var (n, clause) := PromptFor(ks, op).value;
      PromptFor(Image(ks, slices, dead), op) == Some((|Image(ks[..n], slices, dead)|, clause))
    decreases |ks|
  {
    if |ks| > 0 {
      var n, k := |ks| - 1, ks[|ks| - 1];
      PromptImage(ks[..n], op, slices, dead);
      assert ks == ks[..n] + [k];
      hide *;
      PromptLast(ks[..n], k, op, slices, dead);
    }
  }

  lemma PromptLast(front: seq<K>, k: K, op: nat, slices: seq<Slice>, dead: set<nat>)
    requires PromptFor(front, op).None? ==> PromptFor(Image(front, slices, dead), op).None?
    requires PromptFor(front, op).Some? ==>
               var (n, clause) := PromptFor(front, op).value;
               PromptFor(Image(front, slices, dead), op) == Some((|Image(front[..n], slices, dead)|, clause))
    ensures var ks := front + [k];
            && (PromptFor(ks, op).None? ==> PromptFor(Image(ks, slices, dead), op).None?)
            && (PromptFor(ks, op).Some? ==>
                  var (n, clause) := PromptFor(ks, op).value;
                  PromptFor(Image(ks, slices, dead), op) == Some((|Image(ks[..n], slices, dead)|, clause)))
  {
    var image, top := Image(front, slices, dead), ImageOf(k, slices, dead);
    assert top == [] || top == [k] || (top == [top[0]] && !top[0].Prompt? && !k.Prompt?);
    hide *;
    PromptPush(front, k, op);
    ImagePush(front, k, slices, dead);
    if top == [] {
      assert image + top == image;
    } else {
      PromptPush(image, top[0], op);
    }
    assert (front + [k])[..|front|] == front;
    if PromptFor(front, op).Some? {
      var n := PromptFor(front, op).value.0;
      assert (front + [k])[..n] == front[..n];
    }
  }

  // ---- one step -----------------------------------------------------------

  lemma EnterStep(p: Program, x: State, dead: set<nat>, f: V, args: seq<V>)
    requires NoForging(p) && Dead(x, dead) && Free(Names(f), Bad(dead, |x.slices|)) && Free(NamesAll(args), Bad(dead, |x.slices|))
    ensures Dead(Enter(p, x, f, args), dead) && Enter(p, Without(x, dead), f, args) == Without(Enter(p, x, f, args), dead)
  {
  }

  /** The slices kept by their images when a slice is added. */
  lemma SlicesKept(slices: seq<Slice>, dead: set<nat>, s: Slice, dead': set<nat>)
    requires forall r :: 0 <= r < |slices| ==> Numbered(slices[r].seg, |slices|)
    requires dead' == dead || dead' == dead + {|slices|}
    requires forall r :: r in dead ==> r < |slices|
    ensures SlicesImage(slices + [s], dead') == SlicesImage(slices, dead) + [SliceImage(s, |slices|, slices + [s], dead')]
  {
    forall r | 0 <= r < |slices|
      ensures SliceImage(slices[r], r, slices + [s], dead') == SliceImage(slices[r], r, slices, dead)
    {
      ImageKept(slices[r].seg, slices, dead, slices + [s], dead');
    }
  }

  /** The slice above `n` captured, with its boundary in its place. */
  function Cut(x: State, n: nat): State
    requires n <= |x.kont|
  {
    x.(kont := x.kont[..n] + [AfterClause(|x.slices|)], slices := x.slices + [Slice(x.kont[n..], false, false)])
  }

  lemma FreeLess(st: State, bad: iset<nat>, less: iset<nat>)
    requires Unnamed(st, bad) && forall r :: r in less ==> r in bad
    ensures Unnamed(st, less)
  {
  }

  /** A cut names nothing that was not named, and keeps boundaries numbered. */
  lemma CutDead(x: State, dead: set<nat>, n: nat, dead': set<nat>)
    requires Dead(x, dead) && n <= |x.kont| && (dead' == dead || dead' == dead + {|x.slices|})
    ensures Dead(Cut(x, n), dead')
  {
    var y := Cut(x, n);
    FreeLess(x, Bad(dead, |x.slices|), Bad(dead', |y.slices|));
  }

  lemma ImageCut(ks: seq<K>, n: nat, slices: seq<Slice>, dead: set<nat>)
    requires n <= |ks|
    ensures var at := |Image(ks[..n], slices, dead)|;
            && at <= |Image(ks, slices, dead)|
            && Image(ks, slices, dead)[..at] == Image(ks[..n], slices, dead)
            && Image(ks, slices, dead)[at..] == Image(ks[n..], slices, dead)
  {
    ImageJoin(ks[..n], ks[n..], slices, dead);
    assert ks == ks[..n] + ks[n..];
  }

  /** Capturing for a clause that cannot resume is keeping the cleanups. */
  lemma CutSkipped(x: State, dead: set<nat>, n: nat)
    requires Dead(x, dead) && n <= |x.kont|
    ensures var r, seg := |x.slices|, Image(x.kont[n..], x.slices, dead);
            var kept := if Defers(seg) == [] then [] else [Cleanups(Defers(seg))];
            Without(Cut(x, n), dead + {r}) ==
            Without(x, dead).(kont := Image(x.kont[..n], x.slices, dead) + kept, slices := SlicesImage(x.slices, dead) + [Slice([], false, true)])
  {
    var r, y := |x.slices|, Cut(x, n);
    SlicesKept(x.slices, dead, Slice(x.kont[n..], false, false), dead + {r});
    ImageKept(x.kont[..n], x.slices, dead, y.slices, dead + {r});
    ImageJoin(x.kont[..n], [AfterClause(r)], y.slices, dead + {r});
    ImageOne(AfterClause(r), y.slices, dead + {r});
    ImageDefers(x.kont[n..], x.slices, dead);
  }

  /** Capturing for a clause that may resume is capturing. */
  lemma CutKept(x: State, dead: set<nat>, n: nat)
    requires Dead(x, dead) && n <= |x.kont|
    ensures var r := |x.slices|;
            Without(Cut(x, n), dead) ==
            Without(x, dead).(kont := Image(x.kont[..n], x.slices, dead) + [AfterClause(r)],
                              slices := SlicesImage(x.slices, dead) + [Slice(Image(x.kont[n..], x.slices, dead), false, false)])
  {
    var r, y := |x.slices|, Cut(x, n);
    SlicesKept(x.slices, dead, Slice(x.kont[n..], false, false), dead);
    ImageKept(x.kont[..n], x.slices, dead, y.slices, dead);
    ImageKept(x.kont[n..], x.slices, dead, y.slices, dead);
    ImageJoin(x.kont[..n], [AfterClause(r)], y.slices, dead);
    ImageOne(AfterClause(r), y.slices, dead);
  }

  /** The dead slices once `op` is performed. */
  function DeadBy(x: State, dead: set<nat>, op: nat): set<nat> {
    match PromptFor(x.kont, op)
    case Some((_, clause)) => if clause.uses == Never then dead + {|x.slices|} else dead
    case None => dead
  }

  /** The dead slices after the step from `x`. */
  function NextDead(p: Program, x: State, dead: set<nat>): set<nat> {
    if x.focus.Run? && x.focus.frame < |x.frames| then
      var act := p.block(x.focus.at, x.frames[x.focus.frame]).act;
      if act.Apply? && act.f.Oper? then DeadBy(x, dead, act.f.op) else dead
    else dead
  }

  lemma PerformStep(p: Program, x: State, dead: set<nat>, op: nat, arg: V)
    requires NoForging(p) && Dead(x, dead) && Free(Names(arg), Bad(dead, |x.slices|))
    ensures Dead(Perform(p, CAPTURES, x, op, arg), DeadBy(x, dead, op))
    ensures Perform(p, COPIES, Without(x, dead), op, arg) == Without(Perform(p, CAPTURES, x, op, arg), DeadBy(x, dead, op))
  {
    var dead' := DeadBy(x, dead, op);
    assert PromptFor(x.kont, op).None? ==> dead' == dead;
    assert PromptFor(x.kont, op).Some? ==> dead' == if PromptFor(x.kont, op).value.1.uses == Never then dead + {|x.slices|} else dead;
    hide *;
    if PromptFor(x.kont, op).None? {
      PerformNone(p, x, dead, op, arg);
    } else {
      var (n, clause) := PromptFor(x.kont, op).value;
      PromptImage(x.kont, op, x.slices, dead);
      KontFree(x, dead);
      PromptFree(x.kont, op, Bad(dead, |x.slices|));
      PerformCut(p, x, dead, op, arg, n, clause);
    }
  }

  lemma KontFree(x: State, dead: set<nat>)
    requires Dead(x, dead)
    ensures FreeKs(x.kont, Bad(dead, |x.slices|)) && FreeFocus(x.focus, Bad(dead, |x.slices|))
  {
  }

  lemma PerformNone(p: Program, x: State, dead: set<nat>, op: nat, arg: V)
    requires Dead(x, dead) && PromptFor(x.kont, op).None?
    ensures Dead(Perform(p, CAPTURES, x, op, arg), dead)
    ensures Perform(p, COPIES, Without(x, dead), op, arg) == Without(Perform(p, CAPTURES, x, op, arg), dead)
  {
    PromptImage(x.kont, op, x.slices, dead);
    hide Image, PromptFor;
  }

  lemma PerformCut(p: Program, x: State, dead: set<nat>, op: nat, arg: V, n: nat, clause: Clause)
    requires NoForging(p) && Dead(x, dead) && Free(Names(arg), Bad(dead, |x.slices|)) && Free(Names(clause.fun), Bad(dead, |x.slices|))
    requires n < |x.kont| && PromptFor(x.kont, op) == Some((n, clause))
    requires PromptFor(Image(x.kont, x.slices, dead), op) == Some((|Image(x.kont[..n], x.slices, dead)|, clause))
    ensures var dead' := if clause.uses == Never then dead + {|x.slices|} else dead;
            && Dead(Perform(p, CAPTURES, x, op, arg), dead')
            && Perform(p, COPIES, Without(x, dead), op, arg) == Without(Perform(p, CAPTURES, x, op, arg), dead')
  {
    var r, never := |x.slices|, clause.uses == Never;
    var dead' := if never then dead + {r} else dead;
    var args := if never then [arg] else [arg, Res(r)];
    var y := Cut(x, n);
    assert Dead(y, dead') by {
      CutDead(x, dead, n, dead');
    }
    assert Free(NamesAll(args), Bad(dead', r + 1)) by {
      ArgsFree(arg, r, dead);
    }
    assert Free(Names(clause.fun), Bad(dead', r + 1));
    EnterStep(p, y, dead', clause.fun, args);
    assert Perform(p, CAPTURES, x, op, arg) == Enter(p, y, clause.fun, args);
    hide NoForging, Dead, Image, Enter, NamesAll, Free;
    assert Perform(p, COPIES, Without(x, dead), op, arg) == Enter(p, Without(y, dead'), clause.fun, args) by {
      ImageCut(x.kont, n, x.slices, dead);
      if never {
        CutSkipped(x, dead, n);
      } else {
        CutKept(x, dead, n);
      }
    }
  }

  lemma ArgsFree(arg: V, r: nat, dead: set<nat>)
    requires Free(Names(arg), Bad(dead, r))
    ensures Free(NamesAll([arg]), Bad(dead + {r}, r + 1)) && (r !in dead ==> Free(NamesAll([arg, Res(r)]), Bad(dead, r + 1)))
  {
    assert [arg][1..] == [] && [arg, Res(r)][1..] == [Res(r)] && [Res(r)][1..] == [];
    assert NamesAll([arg]) == Names(arg) + {} && NamesAll([Res(r)]) == {r} + {} && NamesAll([arg, Res(r)]) == Names(arg) + NamesAll([Res(r)]);
  }

  lemma ResumeStep(x: State, dead: set<nat>, r: nat, arg: V, unique: bool)
    requires Dead(x, dead) && r !in dead && Free(Names(arg), Bad(dead, |x.slices|))
    ensures Dead(Resume(CAPTURES, x, r, arg, unique), dead)
    ensures Resume(COPIES, Without(x, dead), r, arg, unique) == Without(Resume(CAPTURES, x, r, arg, unique), dead)
  {
    if r < |x.slices| && !x.slices[r].gone {
      ResumeDead(x, dead, r, arg, unique);
      assert Numbered(x.kont, |x.slices|) && forall q :: 0 <= q < |x.slices| ==> Numbered(x.slices[q].seg, |x.slices|);
      hide Dead, Image;
      var y, seg, n := Resume(CAPTURES, x, r, arg, unique), x.slices[r].seg, |x.frames|;
      ResumeSlices(x.slices, dead, r);
      ImageJoin(x.kont, MovedAll(seg, n), y.slices, dead);
      ImageMoved(seg, n, y.slices, dead);
      ImageKept(x.kont, x.slices, dead, y.slices, dead);
      ImageKept(seg, x.slices, dead, y.slices, dead);
    } else {
      FocusStep(x, dead, Faulted);
    }
  }

  /** Marking a slice resumed marks its image. */
  lemma ResumeSlices(slices: seq<Slice>, dead: set<nat>, r: nat)
    requires r < |slices| && r !in dead && forall q :: 0 <= q < |slices| ==> Numbered(slices[q].seg, |slices|)
    ensures var now, image := slices[r := slices[r].(used := true)], SlicesImage(slices, dead);
            SlicesImage(now, dead) == image[r := image[r].(used := true)]
  {
    hide Image;
    var now := slices[r := slices[r].(used := true)];
    forall q | 0 <= q < |slices|
      ensures SliceImage(now[q], q, now, dead) ==
              if q == r then SliceImage(slices[q], q, slices, dead).(used := true) else SliceImage(slices[q], q, slices, dead)
    {
      ImageKept(slices[q].seg, slices, dead, now, dead);
    }
  }

  lemma ResumeDead(x: State, dead: set<nat>, r: nat, arg: V, unique: bool)
    requires Dead(x, dead) && r !in dead && r < |x.slices| && !x.slices[r].gone && Free(Names(arg), Bad(dead, |x.slices|))
    ensures Dead(Resume(CAPTURES, x, r, arg, unique), dead)
  {
    var seg, n := x.slices[r].seg, |x.frames|;
    forall i | 0 <= i < |seg|
      ensures KNames(MovedAll(seg, n)[i]) == KNames(seg[i])
    {
    }
  }

  lemma AppliedStep(p: Program, x: State, dead: set<nat>, f: V, a: V, ask: Ask, ask': Ask)
    requires NoForging(p) && Dead(x, dead) && Free(Names(f), Bad(dead, |x.slices|)) && Free(Names(a), Bad(dead, |x.slices|))
    ensures var dead' := if f.Oper? then DeadBy(x, dead, f.op) else dead;
            && Dead(Applied(p, CAPTURES, x, f, a, ask), dead')
            && Applied(p, COPIES, Without(x, dead), f, a, ask') == Without(Applied(p, CAPTURES, x, f, a, ask), dead')
  {
    match f
    case Oper(op) => hide *; PerformStep(p, x, dead, op, a);
    case Res(r) =>
      assert r !in dead by {
        assert r in Names(f);
      }
      ResumeStep(x, dead, r, a, ask.unique);
    case _ =>
      assert [a][1..] == [] && NamesAll([a]) == Names(a) + {};
      if p.entry(f, [a]).Some? {
        EnterStep(p, x, dead, f, [a]);
      } else {
        PrimStep(p, x, dead, f, a, ask);
      }
  }

  lemma PrimStep(p: Program, x: State, dead: set<nat>, f: V, a: V, ask: Ask)
    requires NoForging(p) && Dead(x, dead) && Free(Names(f), Bad(dead, |x.slices|)) && Free(Names(a), Bad(dead, |x.slices|))
    requires !f.Oper? && !f.Res? && p.entry(f, [a]).None?
    ensures Dead(Applied(p, CAPTURES, x, f, a, ask), dead)
    ensures Applied(p, COPIES, Without(x, dead), f, a, ask) == Without(Applied(p, CAPTURES, x, f, a, ask), dead)
  {
  }

  lemma WroteDead(p: Program, x: State, dead: set<nat>)
    requires NoForging(p) && Dead(x, dead) && x.focus.Run? && x.focus.frame < |x.frames|
    ensures Dead(Wrote(p, x), dead) && FreeDeed(p.block(x.focus.at, x.frames[x.focus.frame]), Bad(dead, |x.slices|))
  {
    var slots := x.frames[x.focus.frame];
    assert FreeDeed(p.block(x.focus.at, slots), Bad(dead, |x.slices|));
    WrittenFree(slots, p.block(x.focus.at, slots).updates, Bad(dead, |x.slices|));
  }

  lemma PushStep(x: State, dead: set<nat>, k: K, next: Focus)
    requires Dead(x, dead) && !k.AfterClause? && Free(KNames(k), Bad(dead, |x.slices|)) && FreeFocus(next, Bad(dead, |x.slices|))
    ensures var y := x.(kont := x.kont + [k], focus := next);
            Dead(y, dead) && Without(x, dead).(kont := Without(x, dead).kont + [k], focus := next) == Without(y, dead)
  {
    PushDead(x, dead, k, next);
    assert ImageOf(k, x.slices, dead) == [k];
    hide Dead, Image;
    ImagePush(x.kont, k, x.slices, dead);
  }

  lemma PushDead(x: State, dead: set<nat>, k: K, next: Focus)
    requires Dead(x, dead) && !k.AfterClause? && Free(KNames(k), Bad(dead, |x.slices|)) && FreeFocus(next, Bad(dead, |x.slices|))
    ensures Dead(x.(kont := x.kont + [k], focus := next), dead)
  {
    hide KNames, Free;
  }

  lemma FocusStep(x: State, dead: set<nat>, next: Focus)
    requires Dead(x, dead) && FreeFocus(next, Bad(dead, |x.slices|))
    ensures Dead(x.(focus := next), dead) && Without(x, dead).(focus := next) == Without(x.(focus := next), dead)
  {
  }

  lemma BlockStep(p: Program, x: State, dead: set<nat>, ask: Ask, ask': Ask)
    requires NoForging(p) && Dead(x, dead) && x.focus.Run?
    ensures Dead(Step(p, CAPTURES, x, ask), NextDead(p, x, dead))
    ensures Step(p, COPIES, Without(x, dead), ask') == Without(Step(p, CAPTURES, x, ask), NextDead(p, x, dead))
  {
    var f := x.focus.frame;
    if f < |x.frames| {
      var d, y := p.block(x.focus.at, x.frames[f]), Wrote(p, x);
      WroteDead(p, x, dead);
      hide Dead, NoForging, Applied, Image;
      match d.act
      case Apply(fun, a) => AppliedStep(p, y, dead, fun, a, ask, ask');
      case Under(what, inner) => PushStep(y, dead, Suspended(what, f), Run(f, inner));
      case Give(v) => FocusStep(y, dead, Return(v));
      case Crash => FocusStep(y, dead, Faulted);
    } else {
      FocusStep(x, dead, Faulted);
    }
  }

  /** The boundary on top is a dead slice's that holds no cleanup. */
  predicate Silent(x: State, dead: set<nat>) {
    AtBoundary(x) && x.kont[|x.kont| - 1].slice in dead && AtStake(x) == []
  }

  lemma UnwindStep(x: State, dead: set<nat>, cleanups: seq<V>, v: V)
    requires Dead(x, dead) && Free(NamesAll(cleanups), Bad(dead, |x.slices|)) && Free(Names(v), Bad(dead, |x.slices|))
    ensures Dead(Unwind(x, cleanups, v), dead) && Unwind(Without(x, dead), cleanups, v) == Without(Unwind(x, cleanups, v), dead)
  {
    hide *;
    UnwindDead(x, dead, cleanups, v);
    UnwindKont(x, cleanups, v);
    UnwindKont(Without(x, dead), cleanups, v);
    WithoutMore(x, dead, [ThunkRet(v)] + Deferred(cleanups), Return(Unit)) by {
      NoBoundary(cleanups, v);
    }
  }

  lemma UnwindKont(st: State, cleanups: seq<V>, v: V)
    ensures Unwind(st, cleanups, v) == st.(kont := st.kont + ([ThunkRet(v)] + Deferred(cleanups)), focus := Return(Unit))
  {
    hide Deferred;
    assert st.kont + [ThunkRet(v)] + Deferred(cleanups) == st.kont + ([ThunkRet(v)] + Deferred(cleanups));
  }

  lemma NoBoundary(cleanups: seq<V>, v: V)
    ensures var top := [ThunkRet(v)] + Deferred(cleanups); forall i :: 0 <= i < |top| ==> !top[i].AfterClause?
  {
  }

  lemma WithoutMore(x: State, dead: set<nat>, top: seq<K>, next: Focus)
    requires forall i :: 0 <= i < |top| ==> !top[i].AfterClause?
    ensures Without(x.(kont := x.kont + top, focus := next), dead) == Without(x, dead).(kont := Without(x, dead).kont + top, focus := next)
  {
    hide Image;
    ImageJoin(x.kont, top, x.slices, dead);
    ImageSelf(top, x.slices, dead);
  }

  lemma UnwindDead(x: State, dead: set<nat>, cleanups: seq<V>, v: V)
    requires Dead(x, dead) && Free(NamesAll(cleanups), Bad(dead, |x.slices|)) && Free(Names(v), Bad(dead, |x.slices|))
    ensures Dead(Unwind(x, cleanups, v), dead)
  {
    forall i | 0 <= i < |cleanups|
      ensures Free(Names(cleanups[i]), Bad(dead, |x.slices|))
    {
      NamesOfOne(cleanups, i);
    }
  }

  function Popped(x: State): State
    requires |x.kont| > 0
  {
    x.(kont := x.kont[..|x.kont| - 1])
  }

  lemma PopStep(x: State, dead: set<nat>)
    requires Dead(x, dead) && |x.kont| > 0
    ensures var k := x.kont[|x.kont| - 1];
            && Dead(Popped(x), dead) && Free(KNames(k), Bad(dead, |x.slices|)) && (k.AfterClause? ==> k.slice < |x.slices|)
            && Without(x, dead).kont == Without(Popped(x), dead).kont + ImageOf(k, x.slices, dead)
            && Without(Popped(x), dead) == Without(x, dead).(kont := Without(Popped(x), dead).kont)
  {
  }

  /** How the two machines must be told of ownership: a dead slice is not owned, and any
      other is found owned alike. */
  ghost predicate ToldAlike(x: State, dead: set<nat>, ask: Ask, ask': Ask) {
    AtBoundary(x) ==> if x.kont[|x.kont| - 1].slice in dead then !ask.owned else ask.owned == ask'.owned
  }

  lemma DeliverStep(p: Program, x: State, dead: set<nat>, ask: Ask, ask': Ask)
    requires NoForging(p) && Dead(x, dead) && x.focus.Return? && !Silent(x, dead) && ToldAlike(x, dead, ask, ask')
    ensures Dead(Step(p, CAPTURES, x, ask), dead) && Step(p, COPIES, Without(x, dead), ask') == Without(Step(p, CAPTURES, x, ask), dead)
  {
    hide *;
    if |x.kont| == 0 {
      StopStep(p, x, dead, ask, ask');
    } else {
      match x.kont[|x.kont| - 1]
      case Ret(_, _, _) => RetStep(p, x, dead, ask, ask');
      case AfterClause(_) => BoundaryStep(p, x, dead, ask, ask');
      case _ => OtherStep(p, x, dead, ask, ask');
    }
  }

  lemma StopStep(p: Program, x: State, dead: set<nat>, ask: Ask, ask': Ask)
    requires Dead(x, dead) && x.focus.Return? && x.kont == []
    ensures Dead(Step(p, CAPTURES, x, ask), dead) && Step(p, COPIES, Without(x, dead), ask') == Without(Step(p, CAPTURES, x, ask), dead)
  {
    KontFree(x, dead);
    FocusStep(x, dead, Stopped(x.focus.v));
  }

  lemma OtherStep(p: Program, x: State, dead: set<nat>, ask: Ask, ask': Ask)
    requires NoForging(p) && Dead(x, dead) && x.focus.Return? && |x.kont| > 0
    requires !x.kont[|x.kont| - 1].Ret? && !x.kont[|x.kont| - 1].AfterClause?
    ensures Dead(Step(p, CAPTURES, x, ask), dead) && Step(p, COPIES, Without(x, dead), ask') == Without(Step(p, CAPTURES, x, ask), dead)
  {
    var v, bad := x.focus.v, Bad(dead, |x.slices|);
    var k, y := x.kont[|x.kont| - 1], Popped(x);
    PopStep(x, dead);
    KontFree(x, dead);
    assert Free(Names(v), bad);
    var w, wy := Without(x, dead), Without(y, dead);
    assert w.kont[|w.kont| - 1] == k && w.kont[..|w.kont| - 1] == wy.kont;
    hide Image, NoForging, Dead, Unwind, Free, Enter;
    match k
    case Prompt(_, els) =>
      ElsFree(k, v, bad);
      EnterStep(p, y, dead, els, [v]);
    case Defer(cleanup) =>
      DeferStep(p, y, dead, cleanup, v);
    case ThunkRet(saved) => FocusStep(y, dead, Return(saved));
    case Cleanups(cleanups) => UnwindStep(y, dead, cleanups, v);
    case _ =>
  }

  /** A cleanup entered over a value. */
  lemma DeferStep(p: Program, y: State, dead: set<nat>, cleanup: V, v: V)
    requires NoForging(p) && Dead(y, dead) && Free(Names(v), Bad(dead, |y.slices|)) && Free(Names(cleanup), Bad(dead, |y.slices|))
    ensures var y', w := y.(kont := y.kont + [ThunkRet(v)]), Without(y, dead);
            && Dead(Enter(p, y', cleanup, []), dead)
            && Enter(p, w.(kont := w.kont + [ThunkRet(v)]), cleanup, []) == Without(Enter(p, y', cleanup, []), dead)
  {
    NoArgsFree(Bad(dead, |y.slices|));
    SavedStep(y, dead, v);
    EnterStep(p, y.(kont := y.kont + [ThunkRet(v)]), dead, cleanup, []);
  }

  lemma SavedStep(x: State, dead: set<nat>, v: V)
    requires Dead(x, dead) && Free(Names(v), Bad(dead, |x.slices|))
    ensures var y := x.(kont := x.kont + [ThunkRet(v)]);
            Dead(y, dead) && Without(x, dead).(kont := Without(x, dead).kont + [ThunkRet(v)]) == Without(y, dead)
  {
    assert FreeFocus(x.focus, Bad(dead, |x.slices|)) && KNames(ThunkRet(v)) == Names(v);
    hide Dead, Image;
    PushStep(x, dead, ThunkRet(v), x.focus);
  }

  // What a step does, by the frame on top.

  lemma StepRet(p: Program, mode: Mode, st: State, rest: seq<K>, f: nat, slot: nat, next: nat, v: V, ask: Ask)
    requires st.focus == Return(v) && st.kont == rest + [Ret(f, slot, next)]
    ensures Step(p, mode, st, ask) ==
            if f >= |st.frames| then st.(focus := Faulted)
            else st.(kont := rest, frames := st.frames[f := Written(st.frames[f], map[slot := Some(v)])], focus := Run(f, next))
  {
    hide Written;
  }

  lemma StepBoundary(p: Program, mode: Mode, st: State, rest: seq<K>, r: nat, v: V, ask: Ask)
    requires st.focus == Return(v) && st.kont == rest + [AfterClause(r)] && r < |st.slices|
    ensures Step(p, mode, st, ask) ==
            if st.slices[r].used || ask.owned then st.(kont := rest) else Unwind(st.(kont := rest), Defers(st.slices[r].seg), v)
  {
    hide Unwind, Defers;
  }

  lemma StepCleanups(p: Program, mode: Mode, st: State, rest: seq<K>, cleanups: seq<V>, v: V, ask: Ask)
    requires st.focus == Return(v) && st.kont == rest + [Cleanups(cleanups)]
    ensures Step(p, mode, st, ask) == Unwind(st.(kont := rest), cleanups, v)
  {
    hide Unwind;
  }

  lemma RetStep(p: Program, x: State, dead: set<nat>, ask: Ask, ask': Ask)
    requires Dead(x, dead) && x.focus.Return? && |x.kont| > 0 && x.kont[|x.kont| - 1].Ret?
    ensures Dead(Step(p, CAPTURES, x, ask), dead) && Step(p, COPIES, Without(x, dead), ask') == Without(Step(p, CAPTURES, x, ask), dead)
  {
    hide *;
    var k, rest, w, v := x.kont[|x.kont| - 1], x.kont[..|x.kont| - 1], Without(x, dead), x.focus.v;
    var y := x.(kont := rest);
    var wy := Without(y, dead);
    RetPop(x, dead);
    StepRet(p, CAPTURES, x, rest, k.frame, k.slot, k.next, v, ask);
    StepRet(p, COPIES, w, wy.kont, k.frame, k.slot, k.next, v, ask');
    if k.frame < |x.frames| {
      FillStep(y, dead, k.frame, k.slot, v, Run(k.frame, k.next));
    } else {
      FaultStep(x, dead);
    }
  }

  lemma RetPop(x: State, dead: set<nat>)
    requires Dead(x, dead) && x.focus.Return? && |x.kont| > 0 && x.kont[|x.kont| - 1].Ret?
    ensures var k, rest, w := x.kont[|x.kont| - 1], x.kont[..|x.kont| - 1], Without(x, dead);
            var y := x.(kont := rest);
            && x.kont == rest + [k] && Dead(y, dead) && Free(Names(x.focus.v), Bad(dead, |x.slices|))
            && w.focus == x.focus && w.frames == x.frames
            && w.kont == Without(y, dead).kont + [k] && Without(y, dead) == w.(kont := Without(y, dead).kont)
  {
    hide Image, Free;
    PopStep(x, dead);
    KontFree(x, dead);
  }

  lemma FaultStep(x: State, dead: set<nat>)
    requires Dead(x, dead)
    ensures Dead(x.(focus := Faulted), dead) && Without(x, dead).(focus := Faulted) == Without(x.(focus := Faulted), dead)
  {
    FocusStep(x, dead, Faulted);
  }

  lemma FillStep(x: State, dead: set<nat>, f: nat, slot: nat, v: V, next: Focus)
    requires Dead(x, dead) && f < |x.frames| && next.Run? && Free(Names(v), Bad(dead, |x.slices|))
    ensures var y := x.(frames := x.frames[f := Written(x.frames[f], map[slot := Some(v)])], focus := next);
            Dead(y, dead) && Without(y, dead) == Without(x, dead).(frames := y.frames, focus := next)
  {
    hide Image, Free;
    WrittenFree(x.frames[f], map[slot := Some(v)], Bad(dead, |x.slices|));
  }

  lemma BoundaryStep(p: Program, x: State, dead: set<nat>, ask: Ask, ask': Ask)
    requires Dead(x, dead) && x.focus.Return? && !Silent(x, dead) && ToldAlike(x, dead, ask, ask')
    requires |x.kont| > 0 && x.kont[|x.kont| - 1].AfterClause?
    ensures Dead(Step(p, CAPTURES, x, ask), dead) && Step(p, COPIES, Without(x, dead), ask') == Without(Step(p, CAPTURES, x, ask), dead)
  {
    hide *;
    var r, rest, w, v := x.kont[|x.kont| - 1].slice, x.kont[..|x.kont| - 1], Without(x, dead), x.focus.v;
    var y := x.(kont := rest);
    var wy := Without(y, dead);
    BoundaryPop(x, dead);
    BoundaryTold(x, dead, ask, ask');
    var ds := Defers(x.slices[r].seg);
    DefersFree(x.slices[r].seg, Bad(dead, |x.slices|));
    ImageDefers(x.slices[r].seg, x.slices, dead);
    UnwindStep(y, dead, ds, v);
    StepBoundary(p, CAPTURES, x, rest, r, v, ask);
    if r in dead {
      StepCleanups(p, COPIES, w, wy.kont, ds, v, ask');
    } else {
      StepBoundary(p, COPIES, w, wy.kont, r, v, ask');
    }
  }

  lemma BoundaryTold(x: State, dead: set<nat>, ask: Ask, ask': Ask)
    requires x.focus.Return? && !Silent(x, dead) && ToldAlike(x, dead, ask, ask')
    requires |x.kont| > 0 && x.kont[|x.kont| - 1].AfterClause? && x.kont[|x.kont| - 1].slice < |x.slices|
    ensures var r := x.kont[|x.kont| - 1].slice;
            && (!x.slices[r].used ==> if r in dead then !ask.owned && Defers(x.slices[r].seg) != [] else ask.owned == ask'.owned)
  {
    hide Defers;
  }

  lemma BoundaryPop(x: State, dead: set<nat>)
    requires Dead(x, dead) && x.focus.Return? && |x.kont| > 0 && x.kont[|x.kont| - 1].AfterClause?
    ensures var r, rest, w := x.kont[|x.kont| - 1].slice, x.kont[..|x.kont| - 1], Without(x, dead);
            var y := x.(kont := rest);
            && x.kont == rest + [AfterClause(r)] && Dead(y, dead) && Free(Names(x.focus.v), Bad(dead, |x.slices|))
            && r < |x.slices| && FreeKs(x.slices[r].seg, Bad(dead, |x.slices|)) && (r in dead ==> !x.slices[r].used)
            && w.focus == x.focus && |w.slices| == |x.slices| && Without(y, dead) == w.(kont := Without(y, dead).kont)
            && (r !in dead ==> w.slices[r] == Slice(Image(x.slices[r].seg, x.slices, dead), x.slices[r].used, x.slices[r].gone))
            && var ds := Defers(x.slices[r].seg);
               w.kont == Without(y, dead).kont + if r in dead then if ds == [] then [] else [Cleanups(ds)] else [AfterClause(r)]
  {
    hide Image, Free, Defers;
    PopStep(x, dead);
    KontFree(x, dead);
  }

  /** Passing a dead boundary with nothing to clean up changes nothing the skipping
      machine has. */
  lemma SilentStep(p: Program, x: State, dead: set<nat>, a: Ask, b: Ask)
    requires Dead(x, dead) && Silent(x, dead) && !a.owned
    ensures var y := Step(p, CAPTURES, Step(p, CAPTURES, x, a), b);
            y == Popped(x) && Dead(y, dead) && Without(y, dead) == Without(x, dead)
  {
    PopStep(x, dead);
    NothingAtStake(p, CAPTURES, x, a, b, Ask(true, false));
  }

  /** A step of the capturing machine, off a silent boundary, is one of the skipping. */
  lemma StepMatched(p: Program, x: State, dead: set<nat>, ask: Ask, ask': Ask)
    requires NoForging(p) && Dead(x, dead) && !Silent(x, dead) && ToldAlike(x, dead, ask, ask')
    ensures Dead(Step(p, CAPTURES, x, ask), NextDead(p, x, dead))
    ensures Step(p, COPIES, Without(x, dead), ask') == Without(Step(p, CAPTURES, x, ask), NextDead(p, x, dead))
  {
    hide NoForging, Dead, Silent, ToldAlike;
    match x.focus
    case Run(_, _) => BlockStep(p, x, dead, ask, ask');
    case Return(_) => DeliverStep(p, x, dead, ask, ask');
    case _ =>
  }

  /** A run starts with no continuation and no slice. */
  lemma StartIsDead(x: State)
    requires x.kont == [] && x.slices == [] && Unnamed(x, Bad({}, 0))
    ensures Dead(x, {}) && Without(x, {}) == x
  {
  }
}
