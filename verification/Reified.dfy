/** The reified-K machine over activations: a stack of continuation frames, slices cut
    off it by `perform` and spliced back by a resumption, moved or copied. */
module Reified {
  import opened Common

  datatype V =
    | Unit
    | Res(slice: nat)
    | Oper(op: nat)
    | Clo(code: nat, env: seq<V>)
      /** Any other value: data, built-ins and their partial applications. */
    | Data(tag: nat, fields: seq<V>)

  datatype Use = Never | Captured

  datatype Clause = Clause(op: nat, fun: V, uses: Use)

  datatype K =
    | Ret(frame: nat, slot: nat, next: nat)
    | Prompt(clauses: seq<Clause>, els: V)
    | Defer(cleanup: V)
    | ThunkRet(saved: V)
      /** The boundary of a clause that captured slice `slice`. */
    | AfterClause(slice: nat)
    | Cleanups(cleanups: seq<V>)

  /** What a stretch of code waits for while other code of its activation runs: a let's
      value, a handled body, or a body with a cleanup. */
  datatype Pending = Await(slot: nat, next: nat) | Install(clauses: seq<Clause>, els: V) | Guard(cleanup: V)

  datatype Act =
    | Give(v: V)
    | Apply(f: V, a: V)
    | Under(what: Pending, inner: nat)
    | Crash

  /** What a block does up to its next turn of the machine: it fills and empties slots
      of its own activation, and acts. */
  datatype Deed = Deed(updates: map<nat, Option<V>>, act: Act)

  type Slots = seq<Option<V>>

  type Trace = seq<(V, V)>

  /** A program: its blocks by at, over the slots of an activation (the captured
      record among them); the activation and first at a value is entered with, if it
      is a closure; what applying any other value answers, after the applications so
      far; and the slots a block, or what follows it, may still read. */
  datatype Program = Program(
    block: (nat, Slots) -> Deed,
    entry: (V, seq<V>) -> Option<(Slots, nat)>,
    prim: (V, V, Trace) -> Option<V>,
    live: nat -> set<nat>)

  /** A captured slice; `gone` when a resume moved it out or nothing was kept. */
  datatype Slice = Slice(seg: seq<K>, used: bool, gone: bool)

  datatype Focus = Run(frame: nat, at: nat) | Return(v: V) | Stopped(v: V) | Faulted

  datatype State = State(frames: seq<Slots>, slices: seq<Slice>, kont: seq<K>, focus: Focus, trace: Trace)

  /** How the machine is built: whether a uniquely owned slice is moved, and whether a
      clause that cannot resume keeps only the cleanups. */
  datatype Mode = Mode(moves: bool, skips: bool)

  /** What the counts say at a step: whether the slice of the boundary on top is still
      owned by other than boundaries, and whether a resume holds its only value. */
  datatype Ask = Ask(owned: bool, unique: bool)

  // ---- frames and slices --------------------------------------------------

  function Written(slots: Slots, updates: map<nat, Option<V>>): (r: Slots)
    ensures |r| == |slots|
  {
    seq(|slots|, i requires 0 <= i < |slots| => if i in updates then updates[i] else slots[i])
  }

  /** A continuation frame of a copied slice: activation `n + f` is the copy of `f`. */
  function Moved(k: K, n: nat): K {
    if k.Ret? then k.(frame := k.frame + n) else k
  }

  function MovedAll(seg: seq<K>, n: nat): (r: seq<K>)
    ensures |r| == |seg|
  {
    seq(|seg|, i requires 0 <= i < |seg| => Moved(seg[i], n))
  }

  /** The cleanups a slice holds, outermost first. */
  function Defers(seg: seq<K>): seq<V> {
    if |seg| == 0 then []
    else
      var rest := Defers(seg[..|seg| - 1]);
      if seg[|seg| - 1].Defer? then rest + [seg[|seg| - 1].cleanup] else rest
  }

  function Deferred(cleanups: seq<V>): (r: seq<K>)
    ensures |r| == |cleanups|
  {
    seq(|cleanups|, i requires 0 <= i < |cleanups| => Defer(cleanups[i]))
  }

  function ClauseFor(clauses: seq<Clause>, op: nat): Option<Clause> {
    if |clauses| == 0 then None else if clauses[0].op == op then Some(clauses[0]) else ClauseFor(clauses[1..], op)
  }

  /** The nearest prompt with a clause for `op`. */
  function PromptFor(kont: seq<K>, op: nat): (r: Option<(nat, Clause)>)
    ensures r.Some? ==> r.value.0 < |kont| && kont[r.value.0].Prompt?
    decreases |kont|
  {
    if |kont| == 0 then None
    else
      var k, n := kont[|kont| - 1], |kont| - 1;
      if k.Prompt? && ClauseFor(k.clauses, op).Some? then Some((n, ClauseFor(k.clauses, op).value))
      else PromptFor(kont[..n], op)
  }

  // ---- steps --------------------------------------------------------------

  function Crashed(st: State): State {
    st.(focus := Faulted)
  }

  /** Enter a closure in a fresh activation. */
  function Enter(p: Program, st: State, f: V, args: seq<V>): State {
    match p.entry(f, args)
    case Some((slots, at)) => st.(frames := st.frames + [slots], focus := Run(|st.frames|, at))
    case None => Crashed(st)
  }

  /** Run abandoned cleanups, then deliver `v`. */
  function Unwind(st: State, cleanups: seq<V>, v: V): State {
    st.(kont := st.kont + [ThunkRet(v)] + Deferred(cleanups), focus := Return(Unit))
  }

  /** Cut the slice at the handler's prompt and enter the clause below it.  A clause
      that cannot resume has its unread resumption dropped as it is entered. */
  function Perform(p: Program, mode: Mode, st: State, op: nat, arg: V): State {
    match PromptFor(st.kont, op)
    case None => Crashed(st)
    case Some((n, clause)) =>
      var seg, below, r := st.kont[n..], st.kont[..n], |st.slices|;
      if clause.uses == Never && mode.skips then
        var kept := if Defers(seg) == [] then [] else [Cleanups(Defers(seg))];
        Enter(p, st.(kont := below + kept, slices := st.slices + [Slice([], false, true)]), clause.fun, [arg])
      else
        Enter(p, st.(kont := below + [AfterClause(r)], slices := st.slices + [Slice(seg, false, false)]), clause.fun,
              if clause.uses == Never then [arg] else [arg, Res(r)])
  }

  /** Splice a slice back on and deliver `arg` to it: its own frames when this resume
      holds it alone, else a private copy. */
  function Resume(mode: Mode, st: State, r: nat, arg: V, unique: bool): State {
    if r >= |st.slices| || st.slices[r].gone then Crashed(st)
    else
      var seg, n := st.slices[r].seg, |st.frames|;
      if mode.moves && unique then
        st.(slices := st.slices[r := Slice([], true, true)], kont := st.kont + seg, focus := Return(arg))
      else
        st.(frames := st.frames + st.frames, slices := st.slices[r := st.slices[r].(used := true)],
            kont := st.kont + MovedAll(seg, n), focus := Return(arg))
  }

  function Applied(p: Program, mode: Mode, st: State, f: V, a: V, ask: Ask): State {
    match f
    case Oper(op) => Perform(p, mode, st, op, a)
    case Res(r) => Resume(mode, st, r, a, ask.unique)
    case _ =>
      if p.entry(f, [a]).Some? then Enter(p, st, f, [a])
      else
        match p.prim(f, a, st.trace)
        case Some(v) => st.(focus := Return(v), trace := st.trace + [(f, a)])
        case None => Crashed(st)
  }

  function Suspended(what: Pending, frame: nat): K {
    match what
    case Await(slot, next) => Ret(frame, slot, next)
    case Install(clauses, els) => Prompt(clauses, els)
    case Guard(cleanup) => Defer(cleanup)
  }

  /** What a block writes. */
  function Wrote(p: Program, st: State): State
    requires st.focus.Run? && st.focus.frame < |st.frames|
  {
    var slots := st.frames[st.focus.frame];
    st.(frames := st.frames[st.focus.frame := Written(slots, p.block(st.focus.at, slots).updates)])
  }

  /** The slice the block about to run resumes, if it is there to resume. */
  function Resumed(p: Program, st: State): (r: Option<nat>)
    ensures r.Some? ==> r.value < |st.slices| && !st.slices[r.value].gone && st.focus.Run? && st.focus.frame < |st.frames|
  {
    if st.focus.Run? && st.focus.frame < |st.frames| then
      var act := p.block(st.focus.at, st.frames[st.focus.frame]).act;
      if act.Apply? && act.f.Res? && act.f.slice < |st.slices| && !st.slices[act.f.slice].gone then Some(act.f.slice) else None
    else None
  }

  /** Run a block of the current activation. */
  function RunBlock(p: Program, mode: Mode, st: State, frame: nat, at: nat, ask: Ask): State {
    if frame >= |st.frames| then Crashed(st)
    else
      var d := p.block(at, st.frames[frame]);
      var wrote := st.(frames := st.frames[frame := Written(st.frames[frame], d.updates)]);
      match d.act
      case Give(v) => wrote.(focus := Return(v))
      case Apply(f, a) => Applied(p, mode, wrote, f, a, ask)
      case Under(what, inner) => wrote.(kont := wrote.kont + [Suspended(what, frame)], focus := Run(frame, inner))
      case Crash => Crashed(wrote)
  }

  /** Hand a value to the top continuation frame. */
  function Deliver(p: Program, st: State, v: V, ask: Ask): State {
    if |st.kont| == 0 then st.(focus := Stopped(v))
    else
      var k, popped := st.kont[|st.kont| - 1], st.(kont := st.kont[..|st.kont| - 1]);
      match k
      case Ret(frame, slot, next) =>
        if frame >= |st.frames| then Crashed(st)
        else popped.(frames := st.frames[frame := Written(st.frames[frame], map[slot := Some(v)])], focus := Run(frame, next))
      case Prompt(_, els) => Enter(p, popped, els, [v])
      case Defer(cleanup) => Enter(p, popped.(kont := popped.kont + [ThunkRet(v)]), cleanup, [])
      case ThunkRet(saved) => popped.(focus := Return(saved))
      case AfterClause(r) =>
        if r >= |st.slices| then Crashed(st)
        else if st.slices[r].used || ask.owned then popped
        else Unwind(popped, Defers(st.slices[r].seg), v)
      case Cleanups(cleanups) => Unwind(popped, cleanups, v)
  }

  function Step(p: Program, mode: Mode, st: State, ask: Ask): State {
    match st.focus
    case Run(frame, at) => RunBlock(p, mode, st, frame, at, ask)
    case Return(v) => Deliver(p, st, v, ask)
    case _ => st
  }

  /** The states of a run, given what the counts say at each step. */
  function RunFor(p: Program, mode: Mode, st: State, asks: seq<Ask>): State
    decreases |asks|
  {
    if |asks| == 0 then st else RunFor(p, mode, Step(p, mode, st, asks[0]), asks[1..])
  }
}
