/** Running a saturated chain of applications of one built-in as a single call: the
    partial applications are never built, and the drops between them wait. */
module Fusion {
  import opened Common
  import opened Ir

  const MAX_CHAIN: nat := 4

  /** Some operand names one of the chain's own slots. */
  predicate ReadsChain(c: Chain) {
    exists i :: 0 <= i < |c.args| && (c.args[i].Local? || c.args[i].Move?) && c.args[i].slot in c.slots
  }

  /** The chain a let begins, if it can run as one call: `deep` are the built-ins that
      force their operands first. */
  function FusedChain(p: Program, deep: set<nat>, slot: nat, rhs: Expr, body: Expr): (r: Option<Chain>)
    ensures r.Some? && r.value.rest.Some? ==> r.value.rest.value.1 == body || r.value.rest.value.1 < body
  {
    if rhs.App? && rhs.fun.Glob? && rhs.fun.name !in p.globals && rhs.fun.name in p.builtins
       && rhs.fun.name !in deep && 0 < p.builtins[rhs.fun.name] <= MAX_CHAIN then
      var c := ChainFrom(rhs.fun.name, p.builtins[rhs.fun.name], [rhs.arg], [slot], [], body);
      if c.Some? && !ReadsChain(c.value) then c else None
    else None
  }

  method FindChain(p: Program, deep: set<nat>, slot: nat, rhs: Expr, body: Expr) returns (r: Option<Chain>)
    ensures r == FusedChain(p, deep, slot, rhs, body)
  {
    if !(rhs.App? && rhs.fun.Glob? && rhs.fun.name !in p.globals && rhs.fun.name in p.builtins) || rhs.fun.name in deep {
      return None;
    }
    var name, arity := rhs.fun.name, p.builtins[rhs.fun.name];
    if arity == 0 || arity > MAX_CHAIN {
      return None;
    }
    var args, slots, cur := [rhs.arg], [slot], body;
    var drops: seq<nat>, rest: Option<(nat, Expr)> := [], None;
    var done := false;
    while !done
      invariant |slots| > 0 && (!done ==> rest.None?)
      invariant !done ==> ChainFrom(name, arity, [rhs.arg], [slot], [], body) == ChainFrom(name, arity, args, slots, drops, cur)
      invariant done ==> ChainFrom(name, arity, [rhs.arg], [slot], [], body) == Some(Chain(name, args, slots, drops, rest))
      decreases !done, cur
    {
      var partial := slots[|slots| - 1];
      if |args| == arity {
        rest, done := Some((partial, cur)), true;
      } else {
        match cur {
          case Drop(more, after) =>
            drops, cur := drops + more, after;
          case App(fun, arg) =>
            if !(fun == Move(partial) && |args| + 1 == arity) {
              return None;
            }
            assert ChainFrom(name, arity, args, slots, drops, cur) == Some(Chain(name, args + [arg], slots + [partial], drops, None));
            args, slots, done := args + [arg], slots + [partial], true;
          case Let(next, value, after) =>
            if !(value.App? && value.fun == Move(partial)) {
              return None;
            }
            args, slots, cur := args + [value.arg], slots + [next], after;
          case _ => return None;
        }
      }
    }
    var c := Chain(name, args, slots, drops, rest);
    r := if ReadsChain(c) then None else Some(c);
  }

  // ---- the fused machine --------------------------------------------------

  /** Run a chain: read every operand, apply the drops, call the built-in, and bind its
      result or return it. */
  function RunChain(p: Program, w: World, c: Chain, fr: Frame, tick: nat): Outcome {
    match ReadAtoms(p, w, c.args, fr, tick)
    case NoneThere => Stuck
    case NoSuch => Faulty
    case Gots(vs, fr1) => Answer(w.prim(c.name, vs, tick), fr1.(locals := Clear(fr1.locals, c.drops)), tick)
  }

  // ---- what a chain leaves ------------------------------------------------

  /** `row'` has every value `row` has, where it has it; and where `row` is empty it may
      have kept values that `ok` allows. */
  ghost predicate Over(row: seq<Option<Val>>, row': seq<Option<Val>>, ok: (nat, Val) -> bool) {
    |row'| == |row| && forall i: nat :: i < |row| ==>
      (if row[i].Some? then row'[i] == row[i] else row'[i].Some? ==> ok(i, row'[i].value))
  }

  ghost predicate Covers(fr: Frame, fr': Frame, ok: (nat, Val) -> bool) {
    Over(fr.locals, fr'.locals, ok) && fr'.env == fr.env
  }

  lemma {:induction false} ReadCovers(p: Program, w: World, a: Atom, fr: Frame, fr': Frame, ok: (nat, Val) -> bool, tick: nat)
    requires Covers(fr, fr', ok) && ReadAtom(p, w, a, fr, tick).Got?
    ensures var r, r' := ReadAtom(p, w, a, fr, tick), ReadAtom(p, w, a, fr', tick);
            r'.Got? && r'.value == r.value && Covers(r.frame, r'.frame, ok)
    decreases a
  {
    if a.Clos? {
      ReadAllCovers(p, w, a.captures, fr, fr', ok, tick);
    }
  }

  lemma {:induction false} ReadAllCovers(p: Program, w: World, atoms: seq<Atom>, fr: Frame, fr': Frame, ok: (nat, Val) -> bool, tick: nat)
    requires Covers(fr, fr', ok) && ReadAtoms(p, w, atoms, fr, tick).Gots?
    ensures var r, r' := ReadAtoms(p, w, atoms, fr, tick), ReadAtoms(p, w, atoms, fr', tick);
            r'.Gots? && r'.values == r.values && Covers(r.frame, r'.frame, ok)
    decreases atoms
  {
    if |atoms| > 0 {
      ReadCovers(p, w, atoms[0], fr, fr', ok, tick);
      ReadAllCovers(p, w, atoms[1..], ReadAtom(p, w, atoms[0], fr, tick).frame, ReadAtom(p, w, atoms[0], fr', tick).frame, ok, tick);
    }
  }

  lemma {:induction false} ClearOver(row: seq<Option<Val>>, row': seq<Option<Val>>, ok: (nat, Val) -> bool, slots: seq<nat>)
    requires Over(row, row', ok)
    ensures Over(Clear(row, slots), Clear(row', slots), ok)
    decreases |slots|
  {
    if |slots| > 0 {
      var a := if slots[0] < |row| then row[slots[0] := None] else row;
      var a' := if slots[0] < |row'| then row'[slots[0] := None] else row';
      ClearOver(a, a', ok, slots[1..]);
    }
  }

  lemma {:induction false} BindOver(row: seq<Option<Val>>, row': seq<Option<Val>>, ok: (nat, Val) -> bool,
                                    base: nat, binders: seq<bool>, fields: seq<Val>)
    requires Over(row, row', ok)
    ensures Over(Bind(row, base, binders, fields), Bind(row', base, binders, fields), ok)
    decreases |binders|
  {
    if |binders| > 0 && |fields| > 0 {
      var a := if binders[0] && base < |row| then row[base := Some(fields[0])] else row;
      var a' := if binders[0] && base < |row'| then row'[base := Some(fields[0])] else row';
      BindOver(a, a', ok, base + 1, binders[1..], fields[1..]);
    }
  }

  lemma ChosenCovers(alt: Alt, v: Val, fr: Frame, fr': Frame, ok: (nat, Val) -> bool)
    requires Covers(fr, fr', ok) && Matches(alt.kind, v)
    ensures Covers(Chosen(alt, v, fr), Chosen(alt, v, fr'), ok)
  {
    if alt.kind.OnCon? {
      if alt.unpack.Consume? {
        ClearOver(fr.locals, fr'.locals, ok, [alt.unpack.slot]);
        var more := if alt.unpack.token.Some? then [alt.unpack.token.value] else [];
        ClearOver(Clear(fr.locals, [alt.unpack.slot]), Clear(fr'.locals, [alt.unpack.slot]), ok, more);
      }
      BindOver(Empties(fr.locals, alt.unpack), Empties(fr'.locals, alt.unpack), ok, alt.base, alt.binders, v.fields);
    }
  }

  /** `fr` with one slot emptied. */
  function Without(fr: Frame, slot: nat): Frame {
    if slot < |fr.locals| then fr.(locals := fr.locals[slot := None]) else fr
  }

  /** Allowed, or in a slot the chain has used or is to drop. */
  ghost function Besides(ok: (nat, Val) -> bool, slots: seq<nat>, drops: seq<nat>): (nat, Val) -> bool {
    (i: nat, v: Val) => ok(i, v) || i in slots || i in drops
  }

  /** In the middle of a chain run let by let: `v`, if it has not been moved, is in the
      last slot, the earlier ones have been moved out, and the dropped slots are empty. */
  ghost predicate Midway(v: Val, slots: seq<nat>, drops: seq<nat>, fr: Frame, fr': Frame, ok: (nat, Val) -> bool) {
    && |slots| > 0
    && var partial := slots[|slots| - 1];
       && partial < |fr.locals| && (fr.locals[partial].Some? ==> fr.locals[partial].value == v)
       && Covers(Without(fr, partial), fr', Besides(ok, slots, drops))
       && forall d :: (d in drops || d in slots) && d < |fr.locals| && d != partial ==> fr.locals[d].None?
  }

  /** The chain run let by let has taken `args`, from a frame that `start` covers: what
      the fused machine would read of them is what has been applied, and once all are,
      the built-in has been called on them. */
  ghost predicate Reached(p: Program, w: World, name: nat, arity: nat, args: seq<Atom>, slots: seq<nat>, drops: seq<nat>,
                          fr: Frame, start: Frame, ok: (nat, Val) -> bool, tick0: nat, tick: nat) {
    && |slots| > 0 && |args| <= arity
    && var r := ReadAtoms(p, w, args, start, tick0);
       && r.Gots? && |r.values| == |args|
       && (|args| < arity ==> tick == tick0 && Midway(Prim(name, r.values), slots, drops, fr, r.frame, ok))
       && (|args| == arity ==>
             && tick == tick0 + 1 && w.prim(name, r.values, tick0).Some?
             && Midway(w.prim(name, r.values, tick0).value, slots, drops, fr, r.frame, ok)
             && fr.locals[slots[|slots| - 1]].Some?)
  }

  lemma {:induction false} Cleared(row: seq<Option<Val>>, slots: seq<nat>)
    ensures forall i :: 0 <= i < |row| ==> Clear(row, slots)[i] == if i in slots then None else row[i]
    decreases |slots|
  {
    if |slots| > 0 {
      Cleared(if slots[0] < |row| then row[slots[0] := None] else row, slots[1..]);
    }
  }

  lemma {:induction false} ReadKeepsNone(p: Program, w: World, a: Atom, fr: Frame, tick: nat)
    ensures var r := ReadAtom(p, w, a, fr, tick);
            r.Got? ==> |r.frame.locals| == |fr.locals| && forall i :: 0 <= i < |fr.locals| && fr.locals[i].None? ==> r.frame.locals[i].None?
    decreases a
  {
    if a.Clos? {
      ReadAllKeepNone(p, w, a.captures, fr, tick);
    }
  }

  lemma {:induction false} ReadAllKeepNone(p: Program, w: World, atoms: seq<Atom>, fr: Frame, tick: nat)
    ensures var r := ReadAtoms(p, w, atoms, fr, tick);
            r.Gots? ==> |r.frame.locals| == |fr.locals| && forall i :: 0 <= i < |fr.locals| && fr.locals[i].None? ==> r.frame.locals[i].None?
    decreases atoms
  {
    if |atoms| > 0 {
      ReadKeepsNone(p, w, atoms[0], fr, tick);
      var r := ReadAtom(p, w, atoms[0], fr, tick);
      if r.Got? {
        ReadAllKeepNone(p, w, atoms[1..], r.frame, tick);
      }
    }
  }

  /** The operands read so far, one after another, by the fused machine. */
  lemma {:induction false} ReadOneMore(p: Program, w: World, atoms: seq<Atom>, a: Atom, fr: Frame, tick: nat)
    requires ReadAtoms(p, w, atoms, fr, tick).Gots?
    ensures ReadAtoms(p, w, atoms + [a], fr, tick) ==
            (var r := ReadAtoms(p, w, atoms, fr, tick);
             match ReadAtom(p, w, a, r.frame, tick)
             case Got(v, fr1) => Gots(r.values + [v], fr1)
             case Empty => NoneThere
             case Missing => NoSuch)
    decreases |atoms|
  {
    if |atoms| > 0 {
      assert (atoms + [a])[1..] == atoms[1..] + [a];
      ReadOneMore(p, w, atoms[1..], a, ReadAtom(p, w, atoms[0], fr, tick).frame, tick);
    }
  }

  /** What a chain left in its slots, other than the one its result goes to, is allowed. */
  ghost predicate Spare(c: Chain, fr: Frame, ok: (nat, Val) -> bool) {
    forall s :: s in c.slots && s < |fr.locals| && (c.rest.Some? ==> s != c.rest.value.0) ==>
      fr.locals[s].None? || ok(s, fr.locals[s].value)
  }

  /** With the drops done, and nothing in the chain's slots that is not allowed. */
  lemma SpareCovers(c: Chain, fr: Frame, fr': Frame, ok: (nat, Val) -> bool)
    requires Covers(fr, fr', Besides(ok, c.slots, c.drops))
    requires forall d :: d in c.drops && d < |fr.locals| ==> fr.locals[d].None?
    requires c.rest.Some? && c.rest.value.0 < |fr.locals| ==> fr.locals[c.rest.value.0].None?
    requires Spare(c, fr'.(locals := Clear(fr'.locals, c.drops)), ok)
    ensures var done := fr'.(locals := Clear(fr'.locals, c.drops));
            if c.rest.Some? then Covers(Without(fr, c.rest.value.0), Without(done, c.rest.value.0), ok) else Covers(fr, done, ok)
  {
    Cleared(fr'.locals, c.drops);
  }

  /** Every operand taken: both machines go on to the rest of the chain. */
  lemma FullyApplied(p: Program, w: World, name: nat, args: seq<Atom>, slots: seq<nat>, drops: seq<nat>,
                     body: Expr, fr: Frame, start: Frame, ok: (nat, Val) -> bool, tick0: nat, tick: nat)
    requires Reached(p, w, name, |args|, args, slots, drops, fr, start, ok, tick0, tick)
    ensures var partial := slots[|slots| - 1]; var c := Chain(name, args, slots, drops, Some((partial, body)));
            var r := RunChain(p, w, c, start, tick0);
            && partial < |fr.locals| && fr.locals[partial].Some?
            && r.Done? && r.value == fr.locals[partial].value && r.tick == tick && |r.frame.locals| == |fr.locals|
            && (Spare(c, r.frame, ok) ==> Covers(fr, r.frame.(locals := r.frame.locals[partial := Some(r.value)]), ok))
            && (forall s :: s in slots && s < |fr.locals| && s != partial ==> fr.locals[s].None?)
  {
    var partial := slots[|slots| - 1];
    var c := Chain(name, args, slots, drops, Some((partial, body)));
    var read := ReadAtoms(p, w, args, start, tick0);
    var done := read.frame.(locals := Clear(read.frame.locals, drops));
    if Spare(c, done, ok) {
      SpareCovers(c, Without(fr, partial), read.frame, ok);
      Refilled(fr, done, ok, partial);
    }
  }

  lemma Refilled(fr: Frame, fr': Frame, ok: (nat, Val) -> bool, s: nat)
    requires s < |fr.locals| && fr.locals[s].Some? && Covers(Without(Without(fr, s), s), Without(fr', s), ok)
    ensures |fr'.locals| == |fr.locals| && Covers(fr, fr'.(locals := fr'.locals[s := fr.locals[s]]), ok)
  {
    var a, b := Without(Without(fr, s), s), Without(fr', s);
    assert forall i :: 0 <= i < |fr.locals| && i != s ==> a.locals[i] == fr.locals[i] && b.locals[i] == fr'.locals[i];
  }

  /** One more operand is taken, by the application that moves the partial one out. */
  lemma TakesOne(p: Program, w: World, name: nat, arity: nat, args: seq<Atom>, slots: seq<nat>, drops: seq<nat>, arg: Atom,
                 fr: Frame, start: Frame, ok: (nat, Val) -> bool, tick0: nat, tick: nat)
    requires name in p.builtins && p.builtins[name] == arity && |args| < arity
    requires Reached(p, w, name, arity, args, slots, drops, fr, start, ok, tick0, tick)
    requires AppStep(p, w, Move(slots[|slots| - 1]), arg, fr, tick, 0).Done?
    ensures var r := AppStep(p, w, Move(slots[|slots| - 1]), arg, fr, tick, 0);
            var read := ReadAtoms(p, w, args + [arg], start, tick0);
            && read.Gots? && |read.values| == |args| + 1 && Covers(r.frame, read.frame, Besides(ok, slots, drops)) && |r.frame.locals| == |fr.locals|
            && (forall d :: (d in drops || d in slots) && d < |fr.locals| ==> r.frame.locals[d].None?)
            && (|args| + 1 < arity ==> r.tick == tick0 && r.value == Prim(name, read.values))
            && (|args| + 1 == arity ==> r.tick == tick0 + 1 && w.prim(name, read.values, tick0) == Some(r.value))
  {
    var partial := slots[|slots| - 1];
    var before := ReadAtoms(p, w, args, start, tick0);
    var moved := Without(fr, partial);
    assert ReadAtom(p, w, Move(partial), fr, tick) == Got(Prim(name, before.values), moved);
    ReadCovers(p, w, arg, moved, before.frame, Besides(ok, slots, drops), tick);
    ReadKeepsNone(p, w, arg, moved, tick);
    ReadOneMore(p, w, args, arg, start, tick0);
  }

  /** The callee and the values of such an application. */
  lemma TakenBy(p: Program, w: World, name: nat, arity: nat, args: seq<Atom>, slots: seq<nat>, drops: seq<nat>,
                fr: Frame, start: Frame, ok: (nat, Val) -> bool, tick0: nat, tick: nat)
    requires |args| < arity && Reached(p, w, name, arity, args, slots, drops, fr, start, ok, tick0, tick)
    ensures var partial := slots[|slots| - 1]; var r := ReadAtom(p, w, Move(partial), fr, tick);
            r.Got? ==> r.value == Prim(name, ReadAtoms(p, w, args, start, tick0).values)
    ensures tick == tick0
  {
  }

  lemma WiderCovers(fr: Frame, fr': Frame, ok: (nat, Val) -> bool, wide: (nat, Val) -> bool)
    requires Covers(fr, fr', ok) && forall i, v :: ok(i, v) ==> wide(i, v)
    ensures Covers(fr, fr', wide)
  {
  }

  /** Moving on to the next slot of the chain. */
  lemma ReachedNext(p: Program, w: World, name: nat, arity: nat, args: seq<Atom>, slots: seq<nat>, drops: seq<nat>, arg: Atom,
                    next: nat, fr: Frame, start: Frame, ok: (nat, Val) -> bool, tick0: nat, tick: nat)
    requires name in p.builtins && p.builtins[name] == arity && |args| < arity
    requires Reached(p, w, name, arity, args, slots, drops, fr, start, ok, tick0, tick)
    requires AppStep(p, w, Move(slots[|slots| - 1]), arg, fr, tick, 0).Done? && next < |fr.locals|
    ensures var r := AppStep(p, w, Move(slots[|slots| - 1]), arg, fr, tick, 0);
            && next < |r.frame.locals|
            && Reached(p, w, name, arity, args + [arg], slots + [next], drops, r.frame.(locals := r.frame.locals[next := Some(r.value)]), start, ok, tick0, r.tick)
  {
    hide AppStep;
    TakesOne(p, w, name, arity, args, slots, drops, arg, fr, start, ok, tick0, tick);
    var r := AppStep(p, w, Move(slots[|slots| - 1]), arg, fr, tick, 0);
    var fr' := r.frame.(locals := r.frame.locals[next := Some(r.value)]);
    var read := ReadAtoms(p, w, args + [arg], start, tick0);
    assert Covers(Without(fr', next), read.frame, Besides(ok, slots + [next], drops));
  }

  /** A drop met along the chain. */
  lemma ReachedDrop(p: Program, w: World, name: nat, arity: nat, args: seq<Atom>, slots: seq<nat>, drops: seq<nat>, more: seq<nat>,
                    fr: Frame, start: Frame, ok: (nat, Val) -> bool, tick0: nat, tick: nat)
    requires Reached(p, w, name, arity, args, slots, drops, fr, start, ok, tick0, tick) && |args| < arity
    ensures Reached(p, w, name, arity, args, slots, drops + more, fr.(locals := Clear(fr.locals, more)), start, ok, tick0, tick)
  {
    Cleared(fr.locals, more);
  }

  /** The chain ends in tail position. */
  lemma LastTaken(p: Program, w: World, name: nat, arity: nat, args: seq<Atom>, slots: seq<nat>, drops: seq<nat>, arg: Atom,
                  fr: Frame, start: Frame, ok: (nat, Val) -> bool, tick0: nat, tick: nat)
    requires name in p.builtins && p.builtins[name] == arity && |args| + 1 == arity && |slots| > 0
    requires Reached(p, w, name, arity, args, slots, drops, fr, start, ok, tick0, tick)
    requires AppStep(p, w, Move(slots[|slots| - 1]), arg, fr, tick, 0).Done?
    ensures var c := Chain(name, args + [arg], slots + [slots[|slots| - 1]], drops, None);
            var r, r' := AppStep(p, w, Move(slots[|slots| - 1]), arg, fr, tick, 0), RunChain(p, w, c, start, tick0);
            && r'.Done? && r'.value == r.value && r'.tick == r.tick && |r.frame.locals| == |fr.locals|
            && (Spare(c, r'.frame, ok) ==> Covers(r.frame, r'.frame, ok))
            && (forall s :: s in c.slots && s < |r.frame.locals| ==> r.frame.locals[s].None?)
  {
    hide AppStep;
    TakesOne(p, w, name, arity, args, slots, drops, arg, fr, start, ok, tick0, tick);
    var c := Chain(name, args + [arg], slots + [slots[|slots| - 1]], drops, None);
    var r, read := AppStep(p, w, Move(slots[|slots| - 1]), arg, fr, tick, 0), ReadAtoms(p, w, args + [arg], start, tick0);
    WiderCovers(r.frame, read.frame, Besides(ok, slots, drops), Besides(ok, c.slots, drops));
    if Spare(c, read.frame.(locals := Clear(read.frame.locals, drops)), ok) {
      SpareCovers(c, r.frame, read.frame, ok);
    }
  }

  /** The first application of a chain. */
  lemma ReachedFirst(p: Program, w: World, name: nat, arg: Atom, slot: nat, fr: Frame, start: Frame, ok: (nat, Val) -> bool, tick: nat)
    requires name !in p.globals && name in p.builtins && p.builtins[name] > 0 && Covers(fr, start, ok)
    requires AppStep(p, w, Glob(name), arg, fr, tick, 0).Done?
    requires slot < |AppStep(p, w, Glob(name), arg, fr, tick, 0).frame.locals|
    ensures var r := AppStep(p, w, Glob(name), arg, fr, tick, 0);
            Reached(p, w, name, p.builtins[name], [arg], [slot], [], r.frame.(locals := r.frame.locals[slot := Some(r.value)]), start, ok, tick, r.tick)
  {
    ReadCovers(p, w, arg, fr, start, ok, tick);
    var got := ReadAtom(p, w, arg, start, tick);
    assert [arg][1..] == [];
    assert ReadAtoms(p, w, [arg], start, tick) == Gots([got.value], got.frame);
    assert [] + [got.value] == [got.value];
  }
}
