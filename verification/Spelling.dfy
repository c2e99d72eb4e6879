/** How a call of all operands is spelled as a chain of lets, and that the chains found are
    exactly the ones so spelled. */
module Spelling {
  import opened Common
  import opened Ir
  import opened Fusion

  /** One more operand: after some drops, the partial application before is applied to it
      and what that yields goes to `slot`. */
  datatype Link = Link(drops: seq<seq<nat>>, slot: nat, arg: Atom)

  /** The last application is bound by the last link, and `rest` goes on; or it is in tail
      position. */
  datatype Ending = Then(rest: Expr) | InTail(drops: seq<seq<nat>>, arg: Atom)

  function Under(drops: seq<seq<nat>>, e: Expr): Expr {
    if |drops| == 0 then e else Drop(drops[0], Under(drops[1..], e))
  }

  /** The code after the let that put a partial application in slot `partial`. */
  function Spelled(partial: nat, links: seq<Link>, ending: Ending): Expr
    decreases |links|
  {
    if |links| == 0 then
      match ending
      case Then(rest) => rest
      case InTail(drops, arg) => Under(drops, App(Move(partial), arg))
    else Under(links[0].drops, Let(links[0].slot, App(Move(partial), links[0].arg), Spelled(links[0].slot, links[1..], ending)))
  }

  function Joined(drops: seq<seq<nat>>): seq<nat> {
    if |drops| == 0 then [] else drops[0] + Joined(drops[1..])
  }

  /** The operands of the links and of the ending, in order. */
  function Operands(links: seq<Link>, ending: Ending): seq<Atom> {
    if |links| == 0 then if ending.InTail? then [ending.arg] else [] else [links[0].arg] + Operands(links[1..], ending)
  }

  /** The slots they use, a tail application the last once more. */
  function Slots(partial: nat, links: seq<Link>, ending: Ending): seq<nat>
    decreases |links|
  {
    if |links| == 0 then if ending.InTail? then [partial] else [] else [links[0].slot] + Slots(links[0].slot, links[1..], ending)
  }

  function Drops(links: seq<Link>, ending: Ending): seq<nat> {
    if |links| == 0 then if ending.InTail? then Joined(ending.drops) else [] else Joined(links[0].drops) + Drops(links[1..], ending)
  }

  function LastSlot(partial: nat, links: seq<Link>): nat {
    if |links| == 0 then partial else links[|links| - 1].slot
  }

  lemma {:induction false} UnderDrops(name: nat, arity: nat, args: seq<Atom>, slots: seq<nat>, drops: seq<nat>, more: seq<seq<nat>>, e: Expr)
    requires |slots| > 0 && |args| != arity
    ensures ChainFrom(name, arity, args, slots, drops, Under(more, e)) == ChainFrom(name, arity, args, slots, drops + Joined(more), e)
    decreases |more|
  {
    if |more| == 0 {
      assert drops + [] == drops;
    } else {
      UnderDrops(name, arity, args, slots, drops + more[0], more[1..], e);
      assert drops + more[0] + Joined(more[1..]) == drops + (more[0] + Joined(more[1..]));
    }
  }

  /** Every chain that is spelled is found, with its operands, slots and drops in order. */
  lemma {:induction false} SpelledIsFound(name: nat, arity: nat, args: seq<Atom>, slots: seq<nat>, drops: seq<nat>, links: seq<Link>, ending: Ending)
    requires |slots| > 0 && |args| + |Operands(links, ending)| == arity
    ensures var partial := slots[|slots| - 1];
            ChainFrom(name, arity, args, slots, drops, Spelled(partial, links, ending)) ==
              Some(Chain(name, args + Operands(links, ending), slots + Slots(partial, links, ending), drops + Drops(links, ending),
                         if ending.Then? then Some((LastSlot(partial, links), ending.rest)) else None))
    decreases |links|
  {
    var partial := slots[|slots| - 1];
    if |links| == 0 {
      if ending.Then? {
        assert args + [] == args && slots + [] == slots && drops + [] == drops;
      } else {
        UnderDrops(name, arity, args, slots, drops, ending.drops, App(Move(partial), ending.arg));
      }
    } else {
      var l, rest := links[0], links[1..];
      var args', slots', drops' := args + [l.arg], slots + [l.slot], drops + Joined(l.drops);
      UnderDrops(name, arity, args, slots, drops, l.drops, Let(l.slot, App(Move(partial), l.arg), Spelled(l.slot, rest, ending)));
      SpelledIsFound(name, arity, args', slots', drops', rest, ending);
      assert slots'[|slots'| - 1] == l.slot;
      assert args' + Operands(rest, ending) == args + Operands(links, ending);
      assert slots' + Slots(l.slot, rest, ending) == slots + Slots(partial, links, ending);
      assert drops' + Drops(rest, ending) == drops + Drops(links, ending);
    }
  }

  /** And whatever is found is so spelled. */
  lemma {:induction false} FoundIsSpelled(name: nat, arity: nat, args: seq<Atom>, slots: seq<nat>, drops: seq<nat>, cur: Expr)
      returns (links: seq<Link>, ending: Ending)
    requires |slots| > 0 && ChainFrom(name, arity, args, slots, drops, cur).Some?
    ensures cur == Spelled(slots[|slots| - 1], links, ending) && |args| + |Operands(links, ending)| == arity
    decreases cur
  {
    var partial := slots[|slots| - 1];
    if |args| == arity {
      links, ending := [], Then(cur);
    } else {
      match cur
      case Drop(more, body) =>
        links, ending := FoundIsSpelled(name, arity, args, slots, drops + more, body);
        if |links| > 0 {
          var l := links[0];
          assert ([more] + l.drops)[1..] == l.drops;
          var first := Link([more] + l.drops, l.slot, l.arg);
          assert ([first] + links[1..])[1..] == links[1..];
          links := [first] + links[1..];
        } else if ending.InTail? {
          assert ([more] + ending.drops)[1..] == ending.drops;
          ending := InTail([more] + ending.drops, ending.arg);
        }
      case App(fun, arg) =>
        links, ending := [], InTail([], arg);
      case Let(next, rhs, body) =>
        links, ending := FoundIsSpelled(name, arity, args + [rhs.arg], slots + [next], drops, body);
        assert (slots + [next])[|slots|] == next;
        assert ([Link([], next, rhs.arg)] + links)[1..] == links;
        links := [Link([], next, rhs.arg)] + links;
    }
  }

  /** The lets from `slot` on spell one call of the built-in `name` of `arity` operands, none
      of which reads a slot the call uses. */
  ghost predicate SpellsCall(slot: nat, arg: Atom, body: Expr, arity: nat, links: seq<Link>, ending: Ending) {
    && body == Spelled(slot, links, ending) && 1 + |Operands(links, ending)| == arity
    && forall i :: 0 <= i < arity ==>
         var a := ([arg] + Operands(links, ending))[i]; a.Local? || a.Move? ==> a.slot !in [slot] + Slots(slot, links, ending)
  }

  /** A let is run fused exactly when it begins such a call of a built-in of at most four
      operands that does not force them. */
  lemma FusesExactly(p: Program, deep: set<nat>, slot: nat, name: nat, arg: Atom, body: Expr)
    ensures FusedChain(p, deep, slot, App(Glob(name), arg), body).Some? <==>
              && name !in p.globals && name in p.builtins && name !in deep && 0 < p.builtins[name] <= 4
              && exists links, ending :: SpellsCall(slot, arg, body, p.builtins[name], links, ending)
  {
    if name !in p.globals && name in p.builtins && name !in deep && 0 < p.builtins[name] <= 4 {
      var arity := p.builtins[name];
      forall links, ending | SpellsCall(slot, arg, body, arity, links, ending)
        ensures FusedChain(p, deep, slot, App(Glob(name), arg), body).Some?
      {
        SpelledIsFound(name, arity, [arg], [slot], [], links, ending);
      }
      if FusedChain(p, deep, slot, App(Glob(name), arg), body).Some? {
        var links, ending := FoundIsSpelled(name, arity, [arg], [slot], [], body);
        SpelledIsFound(name, arity, [arg], [slot], [], links, ending);
        assert SpellsCall(slot, arg, body, arity, links, ending);
      }
    }
  }
}
