/** What the reified machine's steps do, place by place: which clause an operation runs and
    on what, what a resume puts back, and in what order cleanups are queued. */
module Reifying {
  import opened Common
  import opened Ordering
  import opened Reified
  import opened Ownership

  // ---- operations ---------------------------------------------------------

  predicate Passes(k: K, op: nat) {
    k.Prompt? ==> forall j :: 0 <= j < |k.clauses| ==> k.clauses[j].op != op
  }

  lemma {:induction false} ClauseIsFirst(clauses: seq<Clause>, op: nat, j: nat)
    requires j < |clauses| && clauses[j].op == op && forall i :: 0 <= i < j ==> clauses[i].op != op
    ensures ClauseFor(clauses, op) == Some(clauses[j])
  {
    if j > 0 {
      ClauseIsFirst(clauses[1..], op, j - 1);
    }
  }

  lemma {:induction false} NoClauseFor(clauses: seq<Clause>, op: nat)
    requires forall i :: 0 <= i < |clauses| ==> clauses[i].op != op
    ensures ClauseFor(clauses, op).None?
  {
    if |clauses| > 0 {
      NoClauseFor(clauses[1..], op);
    }
  }

  lemma {:induction false} PromptIsNearest(kont: seq<K>, op: nat, n: nat, j: nat)
    requires n < |kont| && kont[n].Prompt? && j < |kont[n].clauses| && kont[n].clauses[j].op == op
    requires forall i :: 0 <= i < j ==> kont[n].clauses[i].op != op
    requires forall q :: n < q < |kont| ==> Passes(kont[q], op)
    ensures PromptFor(kont, op) == Some((n, kont[n].clauses[j]))
    decreases |kont|
  {
    var last := |kont| - 1;
    if last == n {
      ClauseIsFirst(kont[n].clauses, op, j);
    } else {
      assert Passes(kont[last], op);
      if kont[last].Prompt? {
        NoClauseFor(kont[last].clauses, op);
      }
      PromptIsNearest(kont[..last], op, n, j);
    }
  }

  /** The code that is run, and its activation, come last; nothing else is there anew. */
  predicate Entered(p: Program, st: State, s: State, f: V, args: seq<V>) {
    && p.entry(f, args).Some? && s.frames == st.frames + [p.entry(f, args).value.0]
    && s.focus == Run(|st.frames|, p.entry(f, args).value.1) && s.trace == st.trace
  }

  function CleanupOf(k: K): Option<V> {
    if k.Defer? then Some(k.cleanup) else None
  }

  /** `cs` are the cleanups of the `defer` frames of `seg`, each once and in order. */
  ghost predicate CleanupsOf(seg: seq<K>, cs: seq<V>) {
    InOrder(seg, CleanupOf, cs)
  }

  lemma {:induction false} DefersInOrder(seg: seq<K>)
    ensures CleanupsOf(seg, Defers(seg))
  {
    hide InOrder;
    if |seg| == 0 {
      NoneInOrder(CleanupOf);
    } else {
      var n := |seg| - 1;
      DefersInOrder(seg[..n]);
      MoreInOrder(seg[..n], seg[n], CleanupOf, Defers(seg[..n]));
      assert seg == seg[..n] + [seg[n]];
    }
  }

  /** An operation runs the first clause for it of the nearest prompt that has one, on its
      argument and then the resumption of the slice of the frames from that prompt up; a
      clause that cannot resume gets the argument alone, and where the capture is skipped
      those frames are gone but for their cleanups. */
  lemma OperationLands(p: Program, mode: Mode, st: State, op: nat, arg: V, n: nat, j: nat)
    requires n < |st.kont| && st.kont[n].Prompt? && j < |st.kont[n].clauses| && st.kont[n].clauses[j].op == op
    requires forall i :: 0 <= i < j ==> st.kont[n].clauses[i].op != op
    requires forall q :: n < q < |st.kont| ==> Passes(st.kont[q], op)
    requires var c := st.kont[n].clauses[j];
             p.entry(c.fun, if c.uses == Never then [arg] else [arg, Res(|st.slices|)]).Some?
    ensures var s, c, r := Perform(p, mode, st, op, arg), st.kont[n].clauses[j], |st.slices|;
            && Entered(p, st, s, c.fun, if c.uses == Never then [arg] else [arg, Res(r)])
            && if c.uses == Never && mode.skips then
                 && s.slices == st.slices + [Slice([], false, true)]
                 && exists cs: seq<V> :: CleanupsOf(st.kont[n..], cs) && s.kont == st.kont[..n] + (if cs == [] then [] else [Cleanups(cs)])
               else s.slices == st.slices + [Slice(st.kont[n..], false, false)] && s.kont == st.kont[..n] + [AfterClause(r)]
  {
    PromptIsNearest(st.kont, op, n, j);
    DefersInOrder(st.kont[n..]);
    hide PromptFor, CleanupsOf, Defers;
    assert CleanupsOf(st.kont[n..], Defers(st.kont[n..]));
  }

  // ---- cleanups -----------------------------------------------------------

  /** The stack is `below`, the saved value, and a frame for each cleanup, in order. */
  predicate Queues(below: seq<K>, saved: V, cs: seq<V>, kont: seq<K>) {
    var n := |below|;
    && |kont| == n + 1 + |cs| && kont[..n] == below && kont[n] == ThunkRet(saved)
    && forall j :: 0 <= j < |cs| ==> kont[n + 1 + j] == Defer(cs[j])
  }

  /** A boundary whose slice was resumed, or is owned still, is passed by; past any other
      the slice's cleanups are queued over the value, and unit is in flight. */
  lemma BoundaryLands(p: Program, st: State, v: V, ask: Ask)
    requires |st.kont| > 0 && st.kont[|st.kont| - 1].AfterClause? && st.kont[|st.kont| - 1].slice < |st.slices|
    requires st.focus == Return(v)
    ensures var s, below, slice := Deliver(p, st, v, ask), st.kont[..|st.kont| - 1], st.slices[st.kont[|st.kont| - 1].slice];
            && s.frames == st.frames && s.slices == st.slices && s.trace == st.trace
            && if slice.used || ask.owned then s.kont == below && s.focus == Return(v)
               else s.focus == Return(Unit) && exists cs: seq<V> :: CleanupsOf(slice.seg, cs) && Queues(below, v, cs, s.kont)
  {
    var slice := st.slices[st.kont[|st.kont| - 1].slice];
    if !(slice.used || ask.owned) {
      DefersInOrder(slice.seg);
      hide Defers, CleanupsOf;
      assert CleanupsOf(slice.seg, Defers(slice.seg));
    }
  }

  // ---- resuming -----------------------------------------------------------

  /** Frame by frame the slice, its suspended activations `n` further on. */
  predicate Shifted(seg: seq<K>, out: seq<K>, n: nat) {
    && |out| == |seg|
    && forall i :: 0 <= i < |seg| ==>
         if seg[i].Ret? then out[i] == Ret(seg[i].frame + n, seg[i].slot, seg[i].next) else out[i] == seg[i]
  }

  /** A resume delivers its argument to the slice put back on the stack: its own frames,
      gone from the slice, if it moves; otherwise a copy on private activations. */
  lemma ResumePutsBack(mode: Mode, st: State, r: nat, arg: V, unique: bool)
    requires r < |st.slices| && !st.slices[r].gone
    ensures var s, n := Resume(mode, st, r, arg, unique), |st.kont|;
            && s.focus == Return(arg) && |s.kont| == n + |st.slices[r].seg| && s.kont[..n] == st.kont
            && |s.slices| == |st.slices| && s.slices[r].used && (forall q :: 0 <= q < |st.slices| && q != r ==> s.slices[q] == st.slices[q])
            && if mode.moves && unique then s.kont[n..] == st.slices[r].seg && s.slices[r].gone && s.frames == st.frames
               else
                 && Shifted(st.slices[r].seg, s.kont[n..], |st.frames|) && s.slices[r].seg == st.slices[r].seg && !s.slices[r].gone
                 && |s.frames| == 2 * |st.frames|
                 && forall g :: 0 <= g < |st.frames| ==> s.frames[g] == st.frames[g] && s.frames[|st.frames| + g] == st.frames[g]
  {
  }

  // ---- what is named ------------------------------------------------------

  /** A resumption of the slice is `v`, or somewhere inside it. */
  predicate Within(r: nat, v: V)
    decreases v
  {
    match v
    case Res(q) => q == r
    case Clo(_, env) => exists i :: 0 <= i < |env| && Within(r, env[i])
    case Data(_, fields) => exists i :: 0 <= i < |fields| && Within(r, fields[i])
    case _ => false
  }

  lemma {:induction false} NamesAreWithin(v: V, r: nat)
    ensures r in Names(v) <==> Within(r, v)
    decreases v
  {
    match v
    case Clo(_, env) => AllAreWithin(env, r);
    case Data(_, fields) => AllAreWithin(fields, r);
    case _ =>
  }

  lemma {:induction false} AllAreWithin(vs: seq<V>, r: nat)
    ensures r in NamesAll(vs) <==> exists i :: 0 <= i < |vs| && Within(r, vs[i])
    decreases vs
  {
    if |vs| > 0 {
      NamesAreWithin(vs[0], r);
      AllAreWithin(vs[1..], r);
      assert forall i :: 0 < i < |vs| ==> vs[i] == vs[1..][i - 1];
      assert forall i :: 0 <= i < |vs| - 1 ==> vs[1..][i] == vs[i + 1];
    }
  }

  /** What holds the slice in a frame of the stack: a clause or the value clause, a cleanup,
      or a saved value; never a boundary. */
  predicate HeldBy(r: nat, k: K) {
    match k
    case Prompt(clauses, els) => Within(r, els) || exists j :: 0 <= j < |clauses| && Within(r, clauses[j].fun)
    case Defer(cleanup) => Within(r, cleanup)
    case ThunkRet(saved) => Within(r, saved)
    case Cleanups(cleanups) => exists j :: 0 <= j < |cleanups| && Within(r, cleanups[j])
    case _ => false
  }

  lemma {:induction false} ClausesHold(clauses: seq<Clause>, r: nat)
    ensures r in ClauseNames(clauses) <==> exists j :: 0 <= j < |clauses| && Within(r, clauses[j].fun)
  {
    if |clauses| > 0 {
      NamesAreWithin(clauses[0].fun, r);
      ClausesHold(clauses[1..], r);
      assert forall i :: 0 < i < |clauses| ==> clauses[i] == clauses[1..][i - 1];
      assert forall i :: 0 <= i < |clauses| - 1 ==> clauses[1..][i] == clauses[i + 1];
    }
  }

  lemma FrameHolds(k: K, r: nat)
    ensures r in KNames(k) <==> HeldBy(r, k)
  {
    hide Within, Names;
    match k
    case Prompt(clauses, els) =>
      ClausesHold(clauses, r);
      NamesAreWithin(els, r);
    case Defer(cleanup) => NamesAreWithin(cleanup, r);
    case ThunkRet(saved) => NamesAreWithin(saved, r);
    case Cleanups(cleanups) => AllAreWithin(cleanups, r);
    case _ =>
  }
}
