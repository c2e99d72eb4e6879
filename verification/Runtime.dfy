/** The native runtime's memory engine and continuation stack, updated in place. */
module Runtime {
  import opened Common
  import opened Objects

  class Machine {
    /** Every object ever allocated, by reference. */
    var heap: Store
    /** The continuation stack, top last. */
    var kont: seq<KFrame>
    /** Dead values waiting to be destroyed. */
    var dead: seq<Ref>
    var draining: bool

    /** References held outside the heap and the stack: the registers, C locals and
        the temporary pool; and the boundary frames popped but not yet released. */
    ghost var held: multiset<Ref>
    ghost var heldBounds: multiset<Ref>

    constructor ()
      ensures heap == [] && kont == [] && dead == [] && !draining && held == multiset{} && heldBounds == multiset{}
    {
      heap, kont, dead, draining := [], [], [], false;
      held, heldBounds := multiset{}, multiset{};
    }

    /** The references that keep an object alive from outside the heap. */
    ghost function Roots(): multiset<Ref>
      reads this
    {
      SegRefs(kont) + held
    }

    ghost function RootBounds(): multiset<Ref>
      reads this
    {
      SegBounds(kont) + heldBounds
    }

    /** Every count is exact, and the worklist is empty between releases. */
    ghost predicate Valid()
      reads this
    {
      && Exact(heap, Roots(), RootBounds(), dead)
      && (!draining ==> dead == [])
    }

    // ---- releasing --------------------------------------------------------

    /** Drop one reference on `x`, destroying whatever that leaves unreferenced.
        A value that dies while the worklist is being drained is only enqueued; an
        activation or a slice releases what it holds at once.  `log` lists what was
        destroyed, in order. */
    method Release(x: Ref) returns (ghost log: seq<Ref>)
      requires Valid() && held[x] > 0
      modifies this
      ensures Valid()
      ensures held == old(held) - multiset{x} && heldBounds == old(heldBounds)
      ensures kont == old(kont) && draining == old(draining)
      ensures Frees(old(heap), heap, log)
      decreases Live(heap), 3
    {
      hide AllRefs, AllBounds, Refs, Bounds, SegRefs, SegBounds, Exact, Frees, Live;
      DropRoot(heap, Roots(), RootBounds(), dead, x);
      heap := heap[x := heap[x].(rc := heap[x].rc - 1)];
      held := held - multiset{x};
      assert Roots() == old(Roots()) - multiset{x};
      FreesNothing(old(heap), heap);
      log := [];
      if heap[x].rc == 0 {
        FreesShrinks(old(heap), heap, []);
        ghost var h1 := heap;
        if IsCell(heap[x].payload) {
          dead := dead + [x];
          if !draining {
            draining := true;
            log := Drain();
            draining := false;
          }
        } else {
          log := Destroy(x);
        }
        FreesCompose(old(heap), h1, heap, [], log);
        assert [] + log == log;
      }
    }

    /** Destroy everything on the worklist, and whatever that kills in turn. */
    method Drain() returns (ghost log: seq<Ref>)
      requires Valid() && draining
      modifies this
      ensures Valid() && dead == []
      ensures held == old(held) && heldBounds == old(heldBounds)
      ensures kont == old(kont) && draining
      ensures Frees(old(heap), heap, log)
      decreases Live(heap), 2
    {
      hide AllRefs, AllBounds, Refs, Bounds, SegRefs, SegBounds, Exact, Frees, Live;
      FreesNothing(heap, heap);
      log := [];
      while |dead| > 0
        invariant Valid() && draining
        invariant held == old(held) && heldBounds == old(heldBounds) && kont == old(kont)
        invariant Frees(old(heap), heap, log)
        invariant Live(heap) <= old(Live(heap))
        decreases Live(heap)
      {
        ghost var h1 := heap;
        var d := dead[|dead| - 1];
        PopDead(heap, Roots(), RootBounds(), dead);
        dead := dead[..|dead| - 1];
        ghost var more := Destroy(d);
        FreesShrinks(h1, heap, more);
        FreesCompose(old(heap), h1, heap, log, more);
        log := log + more;
        FreesShrinks(old(heap), heap, log);
      }
    }

    /** Destroy `d`, whose count is zero: free it and release what it held.  A
        child equal to the object itself is a weak edge and is skipped. */
    method Destroy(d: Ref) returns (ghost log: seq<Ref>)
      requires d !in dead && Exact(heap, Roots(), RootBounds(), dead + [d])
      requires draining || dead == []
      modifies this
      ensures Valid()
      ensures held == old(held) && heldBounds == old(heldBounds)
      ensures kont == old(kont) && draining == old(draining)
      ensures Frees(old(heap), heap, log) && |log| > 0
      decreases Live(heap), 1
    {
      hide AllRefs, AllBounds, SegRefs, SegBounds, Refs, Bounds, Exact, Frees, Live;
      FreeDead(heap, Roots(), RootBounds(), dead, d);
      var p := heap[d].payload;
      heap := heap[d := heap[d].(payload := Freed)];
      held := held + Refs(d, p);
      heldBounds := heldBounds + Bounds(p);
      assert Roots() == old(Roots()) + Refs(d, p);
      assert RootBounds() == old(RootBounds()) + Bounds(p);
      FreesShrinks(old(heap), heap, [d]);
      ghost var h1 := heap;
      ghost var more := ReleasePayload(d, p);
      FreesCompose(old(heap), h1, heap, [d], more);
      log := [d] + more;
    }

    /** Release everything the payload `p` of the freed object `d` held. */
    method ReleasePayload(d: Ref, p: Payload) returns (ghost log: seq<Ref>)
      requires Valid() && Refs(d, p) <= held && Bounds(p) <= heldBounds
      modifies this
      ensures Valid()
      ensures held == old(held) - Refs(d, p) && heldBounds == old(heldBounds) - Bounds(p)
      ensures kont == old(kont) && draining == old(draining)
      ensures Frees(old(heap), heap, log)
      decreases Live(heap), 7
    {
      hide AllRefs, AllBounds, SegRefs, SegBounds, Exact, Frees, Live;
      FreesNothing(heap, heap);
      log := [];
      match p {
        case Node(_, fields) => log := ReleaseRow(fields, Some(d));
        case Link(target) => log := Release(target);
        case Resumption(slice) => log := Release(slice);
        case Activation(clos, locals, _) => log := ReleaseActivation(clos, locals);
        case Slice(Some(seg), _) => log := ReleaseFrames(seg);
        case _ =>
      }
    }

    /** Release the slots of a finished activation, then its closure. */
    method ReleaseActivation(clos: Option<Ref>, locals: seq<Option<Ref>>) returns (ghost log: seq<Ref>)
      requires Valid() && Present([clos], None) + Present(locals, None) <= held
      modifies this
      ensures Valid()
      ensures held == old(held) - (Present([clos], None) + Present(locals, None)) && heldBounds == old(heldBounds)
      ensures kont == old(kont) && draining == old(draining)
      ensures Frees(old(heap), heap, log)
      decreases Live(heap), 5
    {
      hide AllRefs, AllBounds, SegRefs, SegBounds, Refs, Bounds, Present, Exact, Frees, Live;
      log := ReleaseRow(locals, None);
      FreesShrinks(old(heap), heap, log);
      ghost var h1 := heap;
      ghost var last := ReleaseRow([clos], None);
      FreesCompose(old(heap), h1, heap, log, last);
      log := log + last;
    }

    /** Release the references in a row of slots, but not the weak edge `skip`. */
    method ReleaseRow(fields: seq<Option<Ref>>, skip: Option<Ref>) returns (ghost log: seq<Ref>)
      requires Valid() && Present(fields, skip) <= held
      modifies this
      ensures Valid()
      ensures held == old(held) - Present(fields, skip) && heldBounds == old(heldBounds)
      ensures kont == old(kont) && draining == old(draining)
      ensures Frees(old(heap), heap, log)
      decreases Live(heap), 4
    {
      hide AllRefs, AllBounds, Refs, Bounds, SegRefs, SegBounds, Exact, Frees, Live;
      FreesNothing(heap, heap);
      log := [];
      assert fields[0..] == fields;
      for i := 0 to |fields|
        invariant Valid()
        invariant Present(fields[i..], skip) <= held
        invariant held - Present(fields[i..], skip) == old(held) - Present(fields, skip)
        invariant heldBounds == old(heldBounds) && kont == old(kont) && draining == old(draining)
        invariant Frees(old(heap), heap, log) && Live(heap) <= old(Live(heap))
      {
        assert fields[i..][1..] == fields[i + 1..];
        if fields[i].Some? && fields[i] != skip {
          Peel(held, fields[i].value, Present(fields[i + 1..], skip));
          ghost var h1 := heap;
          ghost var more := Release(fields[i].value);
          FreesCompose(old(heap), h1, heap, log, more);
          log := log + more;
          FreesShrinks(old(heap), heap, log);
        } else {
          assert Present(fields[i..], skip) == Present(fields[i + 1..], skip);
        }
      }
    }

    /** Release everything a popped (or discarded) continuation frame owns. */
    method KFrameRelease(kf: KFrame) returns (ghost log: seq<Ref>)
      requires Valid() && KRefs(kf) <= held && KBounds(kf) <= heldBounds
      modifies this
      ensures Valid()
      ensures held == old(held) - KRefs(kf) && heldBounds == old(heldBounds) - KBounds(kf)
      ensures kont == old(kont) && draining == old(draining)
      ensures Frees(old(heap), heap, log)
      decreases Live(heap), 5
    {
      hide AllRefs, AllBounds, SegRefs, SegBounds, Refs, Bounds, Exact, Frees, Live;
      match kf {
        case KRet(frame, _, _) => log := Release(frame);
        case KPrompt(clauses, els) => log := ReleasePrompt(clauses, els);
        case KDefer(cleanup) => log := Release(cleanup);
        case KThunkRet(saved) => log := Release(saved);
        case KAfterClause(res) => log := ReleaseBoundary(res);
        case KCleanups(cleanups) => log := ReleaseAll(cleanups);
      }
    }

    /** Drop a clause boundary's edge to its slice. */
    method ReleaseBoundary(res: Ref) returns (ghost log: seq<Ref>)
      requires Valid() && held[res] > 0 && heldBounds[res] > 0
      modifies this
      ensures Valid()
      ensures held == old(held) - multiset{res} && heldBounds == old(heldBounds) - multiset{res}
      ensures kont == old(kont) && draining == old(draining)
      ensures Frees(old(heap), heap, log)
      decreases Live(heap), 4
    {
      hide AllRefs, AllBounds, SegRefs, SegBounds, Refs, Bounds, Exact, Frees, Live;
      DropBound(heap, Roots(), RootBounds(), dead, res);
      heap := heap[res := heap[res].(nbound := heap[res].nbound - 1)];
      heldBounds := heldBounds - multiset{res};
      assert RootBounds() == old(RootBounds()) - multiset{res};
      FreesNothing(old(heap), heap);
      FreesShrinks(old(heap), heap, []);
      ghost var h1 := heap;
      log := Release(res);
      FreesCompose(old(heap), h1, heap, [], log);
      assert [] + log == log;
    }

    method ReleasePrompt(clauses: seq<Clause>, els: Ref) returns (ghost log: seq<Ref>)
      requires Valid() && Funs(clauses) + multiset{els} <= held
      modifies this
      ensures Valid()
      ensures held == old(held) - (Funs(clauses) + multiset{els}) && heldBounds == old(heldBounds)
      ensures kont == old(kont) && draining == old(draining)
      ensures Frees(old(heap), heap, log)
      decreases Live(heap), 4
    {
      hide AllRefs, AllBounds, Refs, Bounds, SegRefs, SegBounds, Exact, Frees, Live;
      FreesNothing(heap, heap);
      log := [];
      ghost var one := multiset{els};
      assert clauses[0..] == clauses;
      for i := 0 to |clauses|
        invariant Valid()
        invariant Funs(clauses[i..]) + one <= held
        invariant held - (Funs(clauses[i..]) + one) == old(held) - (Funs(clauses) + one)
        invariant heldBounds == old(heldBounds) && kont == old(kont) && draining == old(draining)
        invariant Frees(old(heap), heap, log) && Live(heap) <= old(Live(heap))
      {
        assert clauses[i..][1..] == clauses[i + 1..];
        assert Funs(clauses[i..]) + one == multiset{clauses[i].fun} + (Funs(clauses[i + 1..]) + one);
        Peel(held, clauses[i].fun, Funs(clauses[i + 1..]) + one);
        ghost var h1 := heap;
        ghost var more := Release(clauses[i].fun);
        FreesCompose(old(heap), h1, heap, log, more);
        log := log + more;
        FreesShrinks(old(heap), heap, log);
      }
      ghost var h1 := heap;
      ghost var more := Release(els);
      FreesCompose(old(heap), h1, heap, log, more);
      log := log + more;
    }

    method ReleaseAll(xs: seq<Ref>) returns (ghost log: seq<Ref>)
      requires Valid() && multiset(xs) <= held
      modifies this
      ensures Valid()
      ensures held == old(held) - multiset(xs) && heldBounds == old(heldBounds)
      ensures kont == old(kont) && draining == old(draining)
      ensures Frees(old(heap), heap, log)
      decreases Live(heap), 4
    {
      hide AllRefs, AllBounds, Refs, Bounds, SegRefs, SegBounds, Exact, Frees, Live;
      FreesNothing(heap, heap);
      log := [];
      assert xs[0..] == xs;
      for i := 0 to |xs|
        invariant Valid()
        invariant multiset(xs[i..]) <= held
        invariant held - multiset(xs[i..]) == old(held) - multiset(xs)
        invariant heldBounds == old(heldBounds) && kont == old(kont) && draining == old(draining)
        invariant Frees(old(heap), heap, log) && Live(heap) <= old(Live(heap))
      {
        assert xs[i..] == [xs[i]] + xs[i + 1..];
        Peel(held, xs[i], multiset(xs[i + 1..]));
        ghost var h1 := heap;
        ghost var more := Release(xs[i]);
        FreesCompose(old(heap), h1, heap, log, more);
        log := log + more;
        FreesShrinks(old(heap), heap, log);
      }
    }

    /** Release the frames of a slice, bottom first. */
    method ReleaseFrames(seg: seq<KFrame>) returns (ghost log: seq<Ref>)
      requires Valid() && SegRefs(seg) <= held && SegBounds(seg) <= heldBounds
      modifies this
      ensures Valid()
      ensures held == old(held) - SegRefs(seg) && heldBounds == old(heldBounds) - SegBounds(seg)
      ensures kont == old(kont) && draining == old(draining)
      ensures Frees(old(heap), heap, log)
      decreases Live(heap), 6
    {
      hide AllRefs, AllBounds, Refs, Bounds, KRefs, KBounds, Exact, Frees, Live;
      FreesNothing(heap, heap);
      log := [];
      assert seg[0..] == seg;
      for i := 0 to |seg|
        invariant Valid()
        invariant SegRefs(seg[i..]) <= held && SegBounds(seg[i..]) <= heldBounds
        invariant held - SegRefs(seg[i..]) == old(held) - SegRefs(seg)
        invariant heldBounds - SegBounds(seg[i..]) == old(heldBounds) - SegBounds(seg)
        invariant kont == old(kont) && draining == old(draining)
        invariant Frees(old(heap), heap, log) && Live(heap) <= old(Live(heap))
      {
        assert seg[i..][1..] == seg[i + 1..];
        PeelMany(held, KRefs(seg[i]), SegRefs(seg[i + 1..]));
        PeelMany(heldBounds, KBounds(seg[i]), SegBounds(seg[i + 1..]));
        ghost var h1 := heap;
        ghost var more := KFrameRelease(seg[i]);
        FreesCompose(old(heap), h1, heap, log, more);
        log := log + more;
        FreesShrinks(old(heap), heap, log);
      }
    }
  }
}
