/** Seeing through a curried global: the chain of closures it builds one argument at a
    time, and where each captured value comes from. */
module Currying {
  import opened Common
  import opened Ir

  /** A global function: the code of each of its closures, outermost first, and, for
      each field of the innermost one's record, the argument it holds. */
  datatype KnownFn = KnownFn(codes: seq<nat>, env: seq<nat>)

  function Arity(f: KnownFn): nat {
    |f.codes|
  }

  /** The chain of returned closures descends: a closure literal's code is nested in
      the code that holds it. */
  ghost predicate Nested(p: Program, depth: seq<nat>) {
    && |depth| == |p.codes|
    && forall i :: 0 <= i < |p.codes| && ReturnedClosure(p.codes[i].body).Some? ==>
         ReturnedClosure(p.codes[i].body).value.0 < |p.codes| && depth[ReturnedClosure(p.codes[i].body).value.0] < depth[i]
  }

  /** Which argument a capture holds, for a closure built by the application of the
      argument `param` in a record holding the arguments `env`. */
  function Source(a: Atom, param: nat, env: seq<nat>): Option<nat> {
    match a
    case Local(i) => if i == 0 then Some(param) else None
    case Move(i) => if i == 0 then Some(param) else None
    case Env(i) => if i < |env| then Some(env[i]) else None
    case MoveEnv(i) => if i < |env| then Some(env[i]) else None
    case _ => None
  }

  function Sources(captures: seq<Atom>, param: nat, env: seq<nat>): (r: Option<seq<nat>>)
    ensures r.Some? ==> |r.value| == |captures|
    decreases |captures|
  {
    if |captures| == 0 then Some([])
    else
      var a, rest := Source(captures[0], param, env), Sources(captures[1..], param, env);
      if a.Some? && rest.Some? then Some([a.value] + rest.value) else None
  }

  /** The next closure of the chain, and the arguments its record holds. */
  function NextLink(p: Program, f: KnownFn): Option<KnownFn>
    requires Arity(f) > 0 && f.codes[Arity(f) - 1] < |p.codes|
  {
    match ReturnedClosure(p.codes[f.codes[Arity(f) - 1]].body)
    case None => None
    case Some((next, captures)) =>
      if next >= |p.codes| || p.codes[next].nparams != 1 then None
      else
        var env := Sources(captures, Arity(f) - 1, f.env);
        if env.Some? then Some(KnownFn(f.codes + [next], env.value)) else None
  }

  /** The arguments the last closure's record holds, when each code's closure is built
      by applying the one before it. */
  function ChainEnv(p: Program, codes: seq<nat>): Option<seq<nat>>
    decreases |codes|
  {
    if |codes| == 0 then None
    else if |codes| == 1 then Some([])
    else
      var before := ChainEnv(p, codes[..|codes| - 1]);
      if before.None? || codes[|codes| - 2] >= |p.codes| then None
      else
        var next := NextLink(p, KnownFn(codes[..|codes| - 1], before.value));
        if next.Some? && next.value.codes[|codes| - 1] == codes[|codes| - 1] then Some(next.value.env) else None
  }

  /** `f` is a chain of the global's closures, each built by applying the one before. */
  ghost predicate IsChain(p: Program, caf: nat, f: KnownFn) {
    && caf < |p.codes| && Arity(f) > 0 && f.codes[Arity(f) - 1] < |p.codes| && f.codes[0] < |p.codes|
    && ReturnedClosure(p.codes[caf].body) == Some((f.codes[0], [])) && p.codes[f.codes[0]].nparams == 1
    && ChainEnv(p, f.codes) == Some(f.env)
  }

  /** The chain without its last closure. */
  ghost function Shorter(p: Program, caf: nat, f: KnownFn): KnownFn
    requires IsChain(p, caf, f) && Arity(f) > 1
  {
    KnownFn(f.codes[..Arity(f) - 1], ChainEnv(p, f.codes[..Arity(f) - 1]).value)
  }

  lemma ChainNotEmpty(p: Program, caf: nat, f: KnownFn)
    requires IsChain(p, caf, f)
    ensures Arity(f) > 0
  {
  }

  lemma ShorterChain(p: Program, caf: nat, f: KnownFn)
    requires IsChain(p, caf, f) && Arity(f) > 1
    ensures var g := Shorter(p, caf, f);
            IsChain(p, caf, g) && Arity(g) == Arity(f) - 1 && NextLink(p, g) == Some(f) && forall k :: 0 <= k < Arity(g) ==> g.codes[k] == f.codes[k]
  {
    var g := Shorter(p, caf, f);
    assert g.codes[0] == f.codes[0] && g.codes[Arity(g) - 1] == f.codes[Arity(f) - 2];
    var next := NextLink(p, g).value;
    assert next.codes == f.codes;
  }

  // ---- where a chain goes on ----------------------------------------------

  /** A closure literal under `n` drops of the unread argument. */
  predicate Literal(e: Expr, n: nat, code: nat, captures: seq<Atom>) {
    if n == 0 then e == Ret(Clos(code, captures)) else e.Drop? && e.slots == [0] && Literal(e.body, n - 1, code, captures)
  }

  lemma {:induction false} LiteralReturned(e: Expr, n: nat, code: nat, captures: seq<Atom>)
    requires Literal(e, n, code, captures)
    ensures ReturnedClosure(e) == Some((code, captures))
  {
    if n > 0 {
      LiteralReturned(e.body, n - 1, code, captures);
    }
  }

  lemma {:induction false} ReturnedLiteral(e: Expr) returns (n: nat)
    requires ReturnedClosure(e).Some?
    ensures Literal(e, n, ReturnedClosure(e).value.0, ReturnedClosure(e).value.1)
    decreases e
  {
    n := 0;
    if e.Drop? {
      n := ReturnedLiteral(e.body);
      n := n + 1;
    }
  }

  /** The place among the arguments so far of what a capture reads, the last being `param`. */
  ghost predicate Reads(a: Atom, param: nat, env: seq<nat>, k: nat) {
    ((a == Local(0) || a == Move(0)) && k == param) || exists j: nat :: (a == Env(j) || a == MoveEnv(j)) && j < |env| && k == env[j]
  }

  ghost predicate IsArgument(a: Atom, param: nat, env: seq<nat>) {
    exists k: nat :: Reads(a, param, env, k)
  }

  lemma {:induction false} SourcesRead(captures: seq<Atom>, param: nat, env: seq<nat>)
    ensures Sources(captures, param, env).Some? <==> forall i :: 0 <= i < |captures| ==> IsArgument(captures[i], param, env)
    ensures Sources(captures, param, env).Some? ==>
              forall i :: 0 <= i < |captures| ==> Reads(captures[i], param, env, Sources(captures, param, env).value[i])
    decreases |captures|
  {
    hide Reads, IsArgument, Source;
    if |captures| > 0 {
      var rest := captures[1..];
      SourcesRead(rest, param, env);
      SourceReads(captures[0], param, env);
      assert forall i :: 0 < i < |captures| ==> captures[i] == rest[i - 1];
      assert forall i :: 0 <= i < |rest| ==> rest[i] == captures[i + 1];
    }
  }

  lemma SourceReads(a: Atom, param: nat, env: seq<nat>)
    ensures Source(a, param, env).Some? <==> IsArgument(a, param, env)
    ensures Source(a, param, env).Some? ==> Reads(a, param, env, Source(a, param, env).value)
  {
    var r := Source(a, param, env);
    if r.Some? {
      if a.Env? || a.MoveEnv? {
        assert Reads(a, param, env, env[a.field]);
      } else {
        assert Reads(a, param, env, param);
      }
    }
  }

  /** A chain goes on exactly where the code returns a closure literal of one argument
      whose every capture is an argument so far; and its record is where those are. */
  lemma ChainGoesOn(p: Program, f: KnownFn)
    requires Arity(f) > 0 && f.codes[Arity(f) - 1] < |p.codes|
    ensures NextLink(p, f).Some? <==> exists n, next, captures :: GoesOnWith(p, f, n, next, captures)
    ensures NextLink(p, f).Some? ==>
              var g := NextLink(p, f).value;
              |g.codes| == Arity(f) + 1 && g.codes[..Arity(f)] == f.codes
              && exists n, captures :: GoesOnWith(p, f, n, g.codes[Arity(f)], captures) && Record(f, captures, g.env)
  {
    var body := p.codes[f.codes[Arity(f) - 1]].body;
    hide Reads, IsArgument;
    forall n, next, captures | GoesOnWith(p, f, n, next, captures)
      ensures NextLink(p, f).Some?
    {
      LiteralReturned(body, n, next, captures);
      SourcesRead(captures, Arity(f) - 1, f.env);
    }
    if NextLink(p, f).Some? {
      var n := ReturnedLiteral(body);
      var (next, captures) := ReturnedClosure(body).value;
      SourcesRead(captures, Arity(f) - 1, f.env);
      var g := NextLink(p, f).value;
      assert g.codes[Arity(f)] == next;
      assert GoesOnWith(p, f, n, g.codes[Arity(f)], captures) && Record(f, captures, g.env);
    }
  }

  /** `env` says which argument each capture is. */
  ghost predicate Record(f: KnownFn, captures: seq<Atom>, env: seq<nat>)
    requires Arity(f) > 0
  {
    |env| == |captures| && forall i :: 0 <= i < |captures| ==> Reads(captures[i], Arity(f) - 1, f.env, env[i])
  }

  ghost predicate GoesOnWith(p: Program, f: KnownFn, n: nat, next: nat, captures: seq<Atom>)
    requires Arity(f) > 0 && f.codes[Arity(f) - 1] < |p.codes|
  {
    && Literal(p.codes[f.codes[Arity(f) - 1]].body, n, next, captures) && next < |p.codes| && p.codes[next].nparams == 1
    && forall i :: 0 <= i < |captures| ==> IsArgument(captures[i], Arity(f) - 1, f.env)
  }

  /** The sources of all of a closure's captures, or `None` as soon as one has none. */
  method FindSources(captures: seq<Atom>, param: nat, env: seq<nat>) returns (r: Option<seq<nat>>)
    ensures r == Sources(captures, param, env)
  {
    var picked := [];
    var i := 0;
    assert captures[0..] == captures;
    ghost var all := Sources(captures, param, env);
    assert all.Some? ==> picked + all.value == all.value;
    while i < |captures|
      invariant i <= |captures| && |picked| == i
      invariant Sources(captures, param, env) ==
                (var rest := Sources(captures[i..], param, env); if rest.Some? then Some(picked + rest.value) else None)
    {
      var a := Source(captures[i], param, env);
      assert captures[i..][0] == captures[i] && captures[i..][1..] == captures[i + 1..];
      if a.None? {
        return None;
      }
      ghost var rest := Sources(captures[i + 1..], param, env);
      assert rest.Some? ==> picked + ([a.value] + rest.value) == picked + [a.value] + rest.value;
      picked := picked + [a.value];
      i := i + 1;
    }
    assert captures[i..] == [] && picked + [] == picked;
    r := Some(picked);
  }

  /** The global function a nullary code defines, if its body is a closure literal: its
      longest chain. */
  method FindKnown(p: Program, caf: nat, ghost depth: seq<nat>) returns (r: Option<KnownFn>)
    requires caf < |p.codes| && Nested(p, depth)
    ensures r.Some? <==> exists code :: ReturnedClosure(p.codes[caf].body) == Some((code, [])) && p.codes[code].nparams == 1
    ensures r.Some? ==> IsChain(p, caf, r.value) && NextLink(p, r.value).None?
  {
    var top := ReturnedClosure(p.codes[caf].body);
    if top.None? {
      return None;
    }
    var (first, captures) := top.value;
    if captures != [] || p.codes[first].nparams != 1 {
      return None;
    }
    var f := KnownFn([first], []);
    var done := false;
    while !done
      invariant IsChain(p, caf, f)
      invariant done ==> NextLink(p, f).None?
      decreases !done, depth[f.codes[Arity(f) - 1]]
    {
      var link := ReturnedClosure(p.codes[f.codes[Arity(f) - 1]].body);
      done := true;
      if link.Some? {
        var (next, captured) := link.value;
        if p.codes[next].nparams == 1 {
          var env := FindSources(captured, Arity(f) - 1, f.env);
          if env.Some? {
            var longer := KnownFn(f.codes + [next], env.value);
            assert longer.codes[..Arity(longer) - 1] == f.codes && NextLink(p, f) == Some(longer);
            f, done := longer, false;
          }
        }
      }
    }
    r := Some(f);
  }

  // ---- what the chain means -----------------------------------------------

  lemma {:induction false} SourcesBelow(captures: seq<Atom>, param: nat, env: seq<nat>)
    requires forall i :: 0 <= i < |env| ==> env[i] < param
    ensures var r := Sources(captures, param, env);
            r.Some? ==> forall i :: 0 <= i < |r.value| ==> r.value[i] <= param
    decreases |captures|
  {
    if |captures| > 0 {
      SourcesBelow(captures[1..], param, env);
    }
  }

  /** Every field of the last closure's record is an argument applied before it. */
  lemma {:induction false} EnvNamesEarlier(p: Program, caf: nat, f: KnownFn)
    requires IsChain(p, caf, f)
    ensures forall i :: 0 <= i < |f.env| ==> f.env[i] < Arity(f) - 1
    decreases |f.codes|
  {
    hide ChainEnv, IsChain;
    ChainNotEmpty(p, caf, f);
    if Arity(f) > 1 {
      ShorterChain(p, caf, f);
      var g := Shorter(p, caf, f);
      EnvNamesEarlier(p, caf, g);
      SourcesBelow(ReturnedClosure(p.codes[g.codes[Arity(g) - 1]].body).value.1, Arity(g) - 1, g.env);
    } else {
      OneLink(p, caf, f);
    }
  }

  lemma OneLink(p: Program, caf: nat, f: KnownFn)
    requires IsChain(p, caf, f) && Arity(f) == 1
    ensures f.env == []
  {
  }

  /** The values of the arguments `picks` names. */
  function Pick(args: seq<Val>, picks: seq<nat>): (r: seq<Val>)
    requires forall i :: 0 <= i < |picks| ==> picks[i] < |args|
    ensures |r| == |picks|
  {
    seq(|picks|, i requires 0 <= i < |picks| => args[picks[i]])
  }

  /** An activation that has lost nothing but values: its slot 0 holds `arg` and its
      record the picked arguments, where they are not empty. */
  ghost predicate Holds(fr: Frame, arg: Val, env: seq<Val>) {
    && |fr.locals| > 0 && (fr.locals[0].Some? ==> fr.locals[0].value == arg)
    && |fr.env| == |env| && forall i :: 0 <= i < |env| && fr.env[i].Some? ==> fr.env[i].value == env[i]
  }

  lemma {:induction false} CapturesHold(p: Program, w: World, captures: seq<Atom>, fr: Frame, tick: nat,
                                        args: seq<Val>, param: nat, env: seq<nat>)
    requires param < |args| && forall i :: 0 <= i < |env| ==> env[i] < param
    requires Holds(fr, args[param], Pick(args, env))
    requires Sources(captures, param, env).Some?
    ensures var r := ReadAtoms(p, w, captures, fr, tick); var picks := Sources(captures, param, env).value;
            && (forall i :: 0 <= i < |picks| ==> picks[i] < |args|)
            && (r.NoneThere? || (r.Gots? && r.values == Pick(args, picks)))
    decreases |captures|
  {
    if |captures| > 0 {
      var a := captures[0];
      var got := ReadAtom(p, w, a, fr, tick);
      assert Source(a, param, env).Some? && Sources(captures[1..], param, env).Some?;
      if got.Got? {
        assert got.value == args[Source(a, param, env).value];
        assert Holds(got.frame, args[param], Pick(args, env));
        CapturesHold(p, w, captures[1..], got.frame, tick, args, param, env);
        var rest := Sources(captures[1..], param, env).value;
        assert Sources(captures, param, env).value == [Source(a, param, env).value] + rest;
        PickCons(args, Source(a, param, env).value, rest);
      } else {
        CapturesHold(p, w, captures[1..], fr, tick, args, param, env);
      }
    }
  }

  lemma PickCons(args: seq<Val>, first: nat, rest: seq<nat>)
    requires first < |args| && forall i :: 0 <= i < |rest| ==> rest[i] < |args|
    ensures Pick(args, [first] + rest) == [args[first]] + Pick(args, rest)
  {
  }

  /** Running a code that only returns a closure: it reads an emptied slot, or yields
      the closure over the right arguments. */
  lemma {:induction false} ReturnedRuns(p: Program, w: World, e: Expr, fr: Frame, tick: nat, fuel: nat,
                                        args: seq<Val>, param: nat, env: seq<nat>)
    requires ReturnedClosure(e).Some? && Sources(ReturnedClosure(e).value.1, param, env).Some?
    requires param < |args| && (forall i :: 0 <= i < |env| ==> env[i] < param) && Holds(fr, args[param], Pick(args, env))
    ensures var (code, captures) := ReturnedClosure(e).value; var picks := Sources(captures, param, env).value;
            && (forall i :: 0 <= i < |picks| ==> picks[i] < |args|)
            && (var r := Eval(p, w, e, fr, tick, fuel);
                r.Stuck? || (r.Done? && r.tick == tick && r.value == Clo(code, Pick(args, picks))))
    decreases e
  {
    match e
    case Ret(a) => CapturesHold(p, w, a.captures, fr, tick, args, param, env);
    case Drop(slots, body) =>
      var fr' := fr.(locals := Clear(fr.locals, [0]));
      assert Clear(fr.locals, [0]) == Clear(fr.locals[0 := None], [0][1..]);
      assert fr'.locals == fr.locals[0 := None];
      ReturnedRuns(p, w, body, fr', tick, fuel, args, param, env);
  }

  /** The value after applying the chain to the first `k` arguments. */
  function AppliedTo(p: Program, w: World, f: KnownFn, args: seq<Val>, k: nat, fr: Frame, tick: nat, fuel: nat): Outcome
    requires Arity(f) > 0 && k <= |args|
    decreases k
  {
    if k == 0 then Done(Clo(f.codes[0], []), fr, tick)
    else
      match AppliedTo(p, w, f, args, k - 1, fr, tick, fuel)
      case Done(v, fr1, t) => Apply(p, w, v, args[k - 1], fr1, t, fuel)
      case other => other
  }

  /** Every code of the chain has a slot for its argument. */
  ghost predicate HasSlots(p: Program, f: KnownFn) {
    forall k :: 0 <= k < |f.codes| ==> f.codes[k] < |p.codes| && p.codes[f.codes[k]].nlocals > 0
  }

  lemma {:induction false} SameStart(p: Program, w: World, f: KnownFn, g: KnownFn, args: seq<Val>, k: nat, fr: Frame, tick: nat, fuel: nat)
    requires Arity(f) > 0 && Arity(g) > 0 && f.codes[0] == g.codes[0] && k <= |args|
    ensures AppliedTo(p, w, f, args, k, fr, tick, fuel) == AppliedTo(p, w, g, args, k, fr, tick, fuel)
  {
    if k > 0 {
      SameStart(p, w, f, g, args, k - 1, fr, tick, fuel);
    }
  }

  /** Applying a known function to all but its last argument, one at a time, yields its
      innermost closure over exactly the arguments `env` selects, unless some code reads
      a slot it emptied. */
  lemma {:induction false} SeesThrough(p: Program, w: World, caf: nat, f: KnownFn, args: seq<Val>, fr: Frame, tick: nat, fuel: nat)
    requires IsChain(p, caf, f) && HasSlots(p, f) && Arity(f) <= |args| && fuel > 0
    ensures forall i :: 0 <= i < |f.env| ==> f.env[i] < Arity(f) - 1
    ensures var r := AppliedTo(p, w, f, args, Arity(f) - 1, fr, tick, fuel);
            r.Stuck? || r == Done(Clo(f.codes[Arity(f) - 1], Pick(args, f.env)), fr, tick)
    decreases |f.codes|
  {
    hide ChainEnv, IsChain;
    ChainNotEmpty(p, caf, f);
    EnvNamesEarlier(p, caf, f);
    if Arity(f) == 1 {
      OneLink(p, caf, f);
      assert Pick(args, f.env) == [];
    } else {
      ShorterChain(p, caf, f);
      var g := Shorter(p, caf, f);
      SeesThrough(p, w, caf, g, args, fr, tick, fuel);
      SameStart(p, w, f, g, args, Arity(g) - 1, fr, tick, fuel);
      LastArgument(p, w, f, args, Arity(g) - 1, fr, tick, fuel);
      if AppliedTo(p, w, g, args, Arity(g) - 1, fr, tick, fuel).Done? {
        OneApplication(p, w, f, g, args, fr, tick, fuel);
      }
    }
  }

  /** Applying the closure of all but the last code runs that code, which returns the
      closure of the last. */
  lemma OneApplication(p: Program, w: World, f: KnownFn, g: KnownFn, args: seq<Val>, fr: Frame, tick: nat, fuel: nat)
    requires Arity(g) > 0 && Arity(g) < |args| && fuel > 0
    requires g.codes[Arity(g) - 1] < |p.codes| && p.codes[g.codes[Arity(g) - 1]].nlocals > 0
    requires NextLink(p, g) == Some(f)
    requires (forall i :: 0 <= i < |g.env| ==> g.env[i] < Arity(g) - 1) && (forall i :: 0 <= i < |f.env| ==> f.env[i] < Arity(g))
    ensures var r := Apply(p, w, Clo(g.codes[Arity(g) - 1], Pick(args, g.env)), args[Arity(g) - 1], fr, tick, fuel);
            r.Stuck? || r == Done(Clo(f.codes[Arity(f) - 1], Pick(args, f.env)), fr, tick)
  {
    var code, param := g.codes[Arity(g) - 1], Arity(g) - 1;
    var inside := Enter(p, code, Pick(args, g.env), args[param]);
    assert Holds(inside, args[param], Pick(args, g.env));
    ReturnedRuns(p, w, p.codes[code].body, inside, tick, fuel - 1, args, param, g.env);
  }

  lemma LastArgument(p: Program, w: World, f: KnownFn, args: seq<Val>, param: nat, fr: Frame, tick: nat, fuel: nat)
    requires Arity(f) == param + 2 && Arity(f) <= |args|
    ensures AppliedTo(p, w, f, args, Arity(f) - 1, fr, tick, fuel)
            == (match AppliedTo(p, w, f, args, param, fr, tick, fuel)
                case Done(v, fr1, t) => Apply(p, w, v, args[param], fr1, t, fuel)
                case other => other)
  {
  }

  /** The last application enters the innermost code with exactly those arguments in its
      record and the last argument in slot 0. */
  lemma EntersInnermost(p: Program, w: World, caf: nat, f: KnownFn, args: seq<Val>, fr: Frame, tick: nat, fuel: nat)
    requires IsChain(p, caf, f) && HasSlots(p, f) && Arity(f) == |args| && fuel > 0
    ensures forall i :: 0 <= i < |f.env| ==> f.env[i] < Arity(f) - 1
    ensures var n := Arity(f);
            var r := AppliedTo(p, w, f, args, n, fr, tick, fuel);
            || AppliedTo(p, w, f, args, n - 1, fr, tick, fuel).Stuck?
            || r == (match Eval(p, w, p.codes[f.codes[n - 1]].body, Enter(p, f.codes[n - 1], Pick(args, f.env), args[n - 1]), tick, fuel - 1)
                     case Done(v, _, t) => Done(v, fr, t)
                     case other => other)
  {
    SeesThrough(p, w, caf, f, args, fr, tick, fuel);
  }
}
