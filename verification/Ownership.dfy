/** What owning a slice comes to: some value that is alive names it. */
module Ownership {
  import opened Common
  import opened Reified
  import opened Moving

  /** The slices a value names. */
  function Names(v: V): set<nat>
    decreases v
  {
    match v
    case Res(r) => {r}
    case Clo(_, env) => NamesAll(env)
    case Data(_, fields) => NamesAll(fields)
    case _ => {}
  }

  function NamesAll(vs: seq<V>): set<nat>
    decreases vs
  {
    if |vs| == 0 then {} else Names(vs[0]) + NamesAll(vs[1..])
  }

  function ClauseNames(clauses: seq<Clause>): set<nat> {
    if |clauses| == 0 then {} else Names(clauses[0].fun) + ClauseNames(clauses[1..])
  }

  /** The slices the values in a continuation frame name; a boundary holds no value. */
  function KNames(k: K): set<nat> {
    match k
    case Prompt(clauses, els) => ClauseNames(clauses) + Names(els)
    case Defer(cleanup) => Names(cleanup)
    case ThunkRet(saved) => Names(saved)
    case Cleanups(cleanups) => NamesAll(cleanups)
    case _ => {}
  }

  /** Activations and slices that are still there. */
  datatype Alive = Alive(frames: set<nat>, slices: set<nat>)

  ghost predicate Keeps(a: Alive, k: K) {
    && (k.Ret? ==> k.frame in a.frames) && (k.AfterClause? ==> k.slice in a.slices)
    && KNames(k) <= a.slices
  }

  ghost predicate KeepsAll(a: Alive, ks: seq<K>) {
    forall i :: 0 <= i < |ks| ==> Keeps(a, ks[i])
  }

  ghost predicate KeepsSlots(a: Alive, slots: Slots) {
    forall i :: 0 <= i < |slots| && slots[i].Some? ==> Names(slots[i].value) <= a.slices
  }

  /** Everything the run or what is alive refers to is alive. */
  ghost predicate Closed(st: State, a: Alive) {
    && (st.focus.Run? ==> st.focus.frame in a.frames) && (st.focus.Return? ==> Names(st.focus.v) <= a.slices)
    && KeepsAll(a, st.kont)
    && (forall f :: f in a.frames && f < |st.frames| ==> KeepsSlots(a, st.frames[f]))
    && (forall r :: r in a.slices && r < |st.slices| ==> KeepsAll(a, st.slices[r].seg))
  }

  ghost predicate NamedIn(r: nat, ks: seq<K>) {
    exists i :: 0 <= i < |ks| && r in KNames(ks[i])
  }

  ghost predicate NamedInSlots(r: nat, slots: Slots) {
    exists i :: 0 <= i < |slots| && slots[i].Some? && r in Names(slots[i].value)
  }

  /** A value that is alive names the slice. */
  ghost predicate Named(st: State, a: Alive, r: nat) {
    || (st.focus.Return? && r in Names(st.focus.v)) || NamedIn(r, st.kont)
    || (exists f :: f in a.frames && f < |st.frames| && NamedInSlots(r, st.frames[f]))
    || (exists q :: q in a.slices && q < |st.slices| && NamedIn(r, st.slices[q].seg))
  }

  /** A slice is owned by other than boundaries when, whatever else has been released, a
      value that is alive names it. */
  ghost predicate Owned(st: State, r: nat) {
    forall a :: Closed(st, a) ==> Named(st, a, r)
  }

  // ---- programs and names -------------------------------------------------

  ghost predicate Free(names: set<nat>, bad: iset<nat>) {
    forall r :: r in names ==> r !in bad
  }

  ghost predicate FreeSlots(slots: Slots, bad: iset<nat>) {
    forall i :: 0 <= i < |slots| && slots[i].Some? ==> Free(Names(slots[i].value), bad)
  }

  ghost predicate FreeKs(ks: seq<K>, bad: iset<nat>) {
    forall i :: 0 <= i < |ks| ==> Free(KNames(ks[i]), bad)
  }

  ghost predicate FreeTrace(t: Trace, bad: iset<nat>) {
    forall i :: 0 <= i < |t| ==> Free(Names(t[i].0), bad) && Free(Names(t[i].1), bad)
  }

  ghost predicate FreeDeed(d: Deed, bad: iset<nat>) {
    && (forall i :: i in d.updates && d.updates[i].Some? ==> Free(Names(d.updates[i].value), bad))
    && match d.act
       case Give(v) => Free(Names(v), bad)
       case Apply(f, a) => Free(Names(f), bad) && Free(Names(a), bad)
       case Under(what, _) => Free(KNames(Suspended(what, 0)), bad)
       case Crash => true
  }

  /** Programs make no resumptions of their own: what they write, do or answer names
      only what they were given. */
  ghost predicate NoForging(p: Program) {
    && (forall at, slots, bad :: FreeSlots(slots, bad) ==> FreeDeed(p.block(at, slots), bad))
    && (forall f, args, bad :: Free(Names(f), bad) && Free(NamesAll(args), bad) && p.entry(f, args).Some? ==>
          FreeSlots(p.entry(f, args).value.0, bad))
    && (forall f, a, t, bad :: Free(Names(f), bad) && Free(Names(a), bad) && FreeTrace(t, bad) && p.prim(f, a, t).Some? ==>
          Free(Names(p.prim(f, a, t).value), bad))
  }

  /** Built-ins answer with nothing they were given before. */
  ghost predicate NoHoarding(p: Program) {
    forall f, a, t, bad :: Free(Names(f), bad) && Free(Names(a), bad) && p.prim(f, a, t).Some? ==> Free(Names(p.prim(f, a, t).value), bad)
  }

  lemma {:induction false} ClauseFree(clauses: seq<Clause>, op: nat, bad: iset<nat>)
    requires Free(ClauseNames(clauses), bad) && ClauseFor(clauses, op).Some?
    ensures Free(Names(ClauseFor(clauses, op).value.fun), bad)
  {
    if clauses[0].op != op {
      ClauseFree(clauses[1..], op, bad);
    }
  }

  lemma {:induction false} PromptFree(ks: seq<K>, op: nat, bad: iset<nat>)
    requires FreeKs(ks, bad) && PromptFor(ks, op).Some?
    ensures Free(Names(PromptFor(ks, op).value.1.fun), bad)
    decreases |ks|
  {
    var n, k := |ks| - 1, ks[|ks| - 1];
    if k.Prompt? && ClauseFor(k.clauses, op).Some? {
      ClauseFree(k.clauses, op, bad);
    } else {
      PromptFree(ks[..n], op, bad);
    }
  }

  lemma WrittenFree(slots: Slots, updates: map<nat, Option<V>>, bad: iset<nat>)
    requires FreeSlots(slots, bad) && forall i :: i in updates && updates[i].Some? ==> Free(Names(updates[i].value), bad)
    ensures FreeSlots(Written(slots, updates), bad)
  {
  }

  lemma {:induction false} NamesOfOne(vs: seq<V>, i: nat)
    requires i < |vs|
    ensures Names(vs[i]) <= NamesAll(vs)
  {
    if i > 0 {
      NamesOfOne(vs[1..], i - 1);
    }
  }

  lemma {:induction false} DefersFree(ks: seq<K>, bad: iset<nat>)
    requires FreeKs(ks, bad)
    ensures Free(NamesAll(Defers(ks)), bad)
    decreases |ks|
  {
    if |ks| > 0 {
      DefersFree(ks[..|ks| - 1], bad);
      if ks[|ks| - 1].Defer? {
        NamesJoin(Defers(ks[..|ks| - 1]), ks[|ks| - 1].cleanup);
      }
    }
  }

  lemma {:induction false} NamesJoin(vs: seq<V>, v: V)
    ensures NamesAll(vs + [v]) == NamesAll(vs) + Names(v)
    decreases |vs|
  {
    if |vs| == 0 {
      assert [v][1..] == [] && vs + [v] == [v];
    } else {
      NamesJoin(vs[1..], v);
      assert (vs + [v])[1..] == vs[1..] + [v];
    }
  }

  lemma NoArgsFree(bad: iset<nat>)
    ensures Free(NamesAll([]), bad)
  {
  }

  lemma ElsFree(k: K, v: V, bad: iset<nat>)
    requires k.Prompt? && Free(KNames(k), bad) && Free(Names(v), bad)
    ensures Free(Names(k.els), bad) && Free(NamesAll([v]), bad)
  {
    assert [v][1..] == [] && NamesAll([v]) == Names(v) + {};
  }

  // ---- what the counts say ------------------------------------------------

  /** The slice of the boundary on top. */
  function Bounding(st: State): nat
    requires AtBoundary(st)
  {
    st.kont[|st.kont| - 1].slice
  }

  /** The resume about to run holds the only value that names its slice: neither what it
      passes on, nor the activation that runs it, nor anything else alive names it. */
  ghost predicate Sole(p: Program, st: State) {
    && Resumed(p, st).Some?
    && !Owned(Step(p, MOVES, st, Ask(false, true)), Resumed(p, st).value) && !Owned(Wrote(p, st), Resumed(p, st).value)
  }

  /** What exact counts answer: whether a value that is alive names the boundary's slice,
      and whether a resume holds the only one. */
  ghost function Counts(p: Program): Decider {
    (st: State) => Ask(AtBoundary(st) && Owned(st, Bounding(st)), Sole(p, st))
  }
}
