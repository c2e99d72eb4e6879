/** The threaded build's values: signed counts under three sharing levels, and every
    operation that writes a cell other threads may reach.

    Each access or locked section is one step.  A plain count of the same objects
    runs beside the signed ones, as a ghost: it is exact, and it never sees more
    than the code does. */
module Sharing {
  import opened Common
  import opened Objects
  import opened Kinds
  import opened Levels

  predicate IsData(p: Payload) {
    p.Freed? || p.Scalar? || p.Node? || p.Link? || p.Op?
  }

  /** The signed heap and the plain one are the same heap. */
  ghost predicate Encoded(cells: Cells, h: Store) {
    && |cells| == |h|
    && forall i: Ref :: i < |h| ==> Encodes(cells[i], h[i]) && IsData(h[i].payload)
  }

  /** The table of immortal cells lists each once. */
  ghost predicate Table(cells: Cells, immortals: seq<Ref>) {
    && NoDup(immortals)
    && (forall i: Ref :: i in immortals ==> i < |cells|)
    && forall i: Ref :: i < |cells| ==> (cells[i].level == IMMORTAL <==> i in immortals)
  }

  /** Exact counts, under any levels. */
  ghost predicate Sound(cells: Cells, immortals: seq<Ref>, h: Store, held: multiset<Ref>, dead: seq<Ref>) {
    && Encoded(cells, h) && Table(cells, immortals)
    && Exact(h, held + multiset(immortals), multiset{}, dead)
  }

  // ---- what each step does to both heaps ----------------------------------

  lemma EncodedUpdate(cells: Cells, h: Store, i: Ref, c: Cell, o: Obj)
    requires Encoded(cells, h) && i < |h| && Encodes(c, o) && IsData(o.payload)
    ensures Encoded(cells[i := c], h[i := o])
  {
  }

  lemma TableUpdate(cells: Cells, immortals: seq<Ref>, i: Ref, c: Cell)
    requires Table(cells, immortals) && i < |cells| && c.level == cells[i].level
    ensures Table(cells[i := c], immortals)
  {
  }

  lemma ClosedCount(cells: Cells, i: Ref, c: Cell)
    requires Closed(cells) && i < |cells| && c.level == cells[i].level && c.payload == cells[i].payload
    ensures Closed(cells[i := c])
  {
  }

  lemma ClosedFree(cells: Cells, i: Ref, c: Cell)
    requires Closed(cells) && i < |cells| && c.level == cells[i].level && c.payload.Freed?
    ensures Closed(cells[i := c])
  {
  }

  /** The children of an object that has not been freed are counted. */
  lemma KidCounted(h: Store, roots: multiset<Ref>, v: Ref, c: Ref)
    requires Exact(h, roots, multiset{}, []) && v < |h| && !h[v].payload.Freed? && IsChild(h[v].payload, c)
    ensures c < |h| && h[c].rc > 0 && !h[c].payload.Freed?
  {
    hide AllRefs, AllBounds;
    RefsBelow(h, v);
    match h[v].payload
    case Node(_, fields) =>
      if c != v {
        var j :| 0 <= j < |fields| && fields[j] == Some(c);
        PresentHas(fields, Some(v), j);
        assert (AllRefs(h) + roots)[c] > 0;
      }
    case Link(target) =>
      assert (AllRefs(h) + roots)[c] > 0;
  }

  lemma SoundRetain(cells: Cells, immortals: seq<Ref>, h: Store, held: multiset<Ref>, dead: seq<Ref>, x: Ref)
    requires Sound(cells, immortals, h, held, dead) && x < |h| && h[x].rc > 0
    ensures Retained(cells[x]).Some?
    ensures Sound(cells[x := Retained(cells[x]).value], immortals, h[x := h[x].(rc := h[x].rc + 1)], held + multiset{x}, dead)
  {
    hide Exact;
    RetainCounts(cells[x], h[x]);
    AddRoot(h, held + multiset(immortals), multiset{}, dead, x);
    assert held + multiset(immortals) + multiset{x} == held + multiset{x} + multiset(immortals);
  }

  lemma SoundRelease(cells: Cells, immortals: seq<Ref>, h: Store, held: multiset<Ref>, dead: seq<Ref>, x: Ref)
    requires Sound(cells, immortals, h, held, dead) && held[x] > 0
    ensures x < |h| == |cells| && h[x].rc > 0 && Released(cells[x]).Some?
    ensures var (c, died) := Released(cells[x]).value;
            && (died <==> h[x].rc == 1)
            && Sound(cells[x := c], immortals, h[x := h[x].(rc := h[x].rc - 1)], held - multiset{x}, if died then dead + [x] else dead)
            && c.level == cells[x].level && c.payload == cells[x].payload
  {
    hide AllRefs, AllBounds, Tallied;
    var roots := held + multiset(immortals);
    DropRoot(h, roots, multiset{}, dead, x);
    RootAlive(h, roots, multiset{}, dead, x);
    assert roots - multiset{x} == held - multiset{x} + multiset(immortals);
    ImmortalHeld(cells, immortals, h, held, dead, x);
    ReleaseCounts(cells[x], h[x]);
  }

  /** The table's reference is one more than those the program holds. */
  lemma ImmortalHeld(cells: Cells, immortals: seq<Ref>, h: Store, held: multiset<Ref>, dead: seq<Ref>, x: Ref)
    requires Sound(cells, immortals, h, held, dead) && held[x] > 0 && x < |h|
    ensures cells[x].level == IMMORTAL ==> h[x].rc > 1
  {
    hide AllRefs, AllBounds;
    if cells[x].level == IMMORTAL {
      assert x in immortals;
      assert multiset(immortals)[x] > 0;
      assert h[x].rc == (AllRefs(h) + (held + multiset(immortals)))[x];
    }
  }

  lemma SoundFree(cells: Cells, immortals: seq<Ref>, h: Store, held: multiset<Ref>, dead: seq<Ref>, d: Ref)
    requires Sound(cells, immortals, h, held, dead + [d]) && d !in dead
    ensures d < |h| && !h[d].payload.Freed?
    ensures Sound(cells[d := cells[d].(payload := Freed)], immortals, h[d := h[d].(payload := Freed)], held + Refs(d, h[d].payload), dead)
    ensures Frees(h, h[d := h[d].(payload := Freed)], [d])
  {
    hide AllRefs, AllBounds, Tallied, Refs, Frees;
    var roots := held + multiset(immortals);
    FreeDead(h, roots, multiset{}, dead, d);
    DataOwnsNoBounds(h[d].payload);
    assert multiset{} + Bounds(h[d].payload) == multiset{};
    assert roots + Refs(d, h[d].payload) == held + Refs(d, h[d].payload) + multiset(immortals);
  }

  lemma DataOwnsNoBounds(p: Payload)
    requires IsData(p)
    ensures Bounds(p) == multiset{}
  {
  }

  lemma SoundRaise(cells: Cells, immortals: seq<Ref>, h: Store, held: multiset<Ref>, v: Ref, level: Level)
    requires Sound(cells, immortals, h, held, []) && v < |h| && h[v].rc > 0 && cells[v].level < level
    ensures var c := Raised(cells[v], level);
            if level == IMMORTAL then
              Sound(cells[v := c], immortals + [v], h[v := h[v].(rc := h[v].rc + 1)], held, [])
            else Sound(cells[v := c], immortals, h, held, [])
  {
    hide Exact;
    RaisingKeepsCounts(cells[v], h[v], level);
    if level == IMMORTAL {
      AddRoot(h, held + multiset(immortals), multiset{}, [], v);
      assert held + multiset(immortals) + multiset{v} == held + multiset(immortals + [v]);
    } else {
      assert h[v := h[v]] == h;
    }
  }

  /** Writing a cell: the references it gives up come to hand, and those it takes in
      go from it. */
  lemma SoundWrite(cells: Cells, immortals: seq<Ref>, h: Store, held: multiset<Ref>, v: Ref, p: Payload, lazy: Lazy, held': multiset<Ref>)
    requires Sound(cells, immortals, h, held, []) && v < |h| && !h[v].payload.Freed? && !p.Freed? && IsData(p)
    requires forall x: Ref :: held'[x] + Refs(v, p)[x] == held[x] + Refs(v, h[v].payload)[x]
    ensures Sound(cells[v := cells[v].(payload := p, lazy := lazy)], immortals, h[v := h[v].(payload := p)], held', [])
  {
    hide Exact, Refs;
    DataOwnsNoBounds(p);
    DataOwnsNoBounds(h[v].payload);
    ChangeObject(h, held + multiset(immortals), multiset{}, [], v, p, held' + multiset(immortals), multiset{});
  }

  lemma SoundNew(cells: Cells, immortals: seq<Ref>, h: Store, held: multiset<Ref>, p: Payload)
    requires Sound(cells, immortals, h, held, []) && IsData(p) && !p.Freed? && Refs(|h|, p) <= held
    ensures Sound(cells + [Cell(LOCAL, 1, Plain, p)], immortals, h + [Obj(1, 0, p)], held - Refs(|h|, p) + multiset{|h|}, [])
  {
    hide AllRefs, AllBounds, Refs, Tallied;
    var n := |h|;
    var held' := held - Refs(n, p) + multiset{n};
    PastTheHeap(h, held + multiset(immortals));
    DataOwnsNoBounds(p);
    assert held[n] == 0 && multiset(immortals)[n] == 0 by {
      assert (held + multiset(immortals))[n] == 0;
    }
    assert Refs(n, p)[n] <= held[n];
    NewObject(h, held + multiset(immortals), multiset{}, [], Obj(1, 0, p), held' + multiset(immortals), multiset{});
  }

  lemma PastTheHeap(h: Store, roots: multiset<Ref>)
    requires Exact(h, roots, multiset{}, [])
    ensures roots[|h|] == 0 && AllBounds(h)[|h|] == 0
  {
    hide AllRefs, AllBounds;
    assert (AllRefs(h) + roots)[|h|] == 0;
    AllBoundsBelow(h);
    assert AllBounds(h)[|h|] <= AllRefs(h)[|h|];
  }

  /** Nothing the program holds has been freed, and releases leave it as it was. */
  lemma HeldKept(h: Store, h': Store, log: seq<Ref>, immortals: seq<Ref>, held: multiset<Ref>, dead: seq<Ref>, x: Ref)
    requires Frees(h, h', log) && Exact(h', held + multiset(immortals), multiset{}, dead) && held[x] > 0
    ensures x < |h| == |h'| && h'[x].payload == h[x].payload && h'[x].rc > 0 && !h'[x].payload.Freed?
  {
    hide AllRefs, AllBounds, Refs;
    RootAlive(h', held + multiset(immortals), multiset{}, dead, x);
  }

  /** The only reference to a uniquely held value is the caller's: no other value has
      it for a child, so writing it in place is not observed. */
  lemma UniqueUnobserved(cells: Cells, immortals: seq<Ref>, h: Store, held: multiset<Ref>, v: Ref)
    requires Sound(cells, immortals, h, held, []) && v < |h| && held[v] > 0 && Unique(cells[v])
    ensures held[v] == 1 && forall y: Ref :: y < |h| && y != v ==> !IsChild(h[y].payload, v)
  {
    hide AllRefs, AllBounds;
    UniqueMeansOne(cells[v], h[v]);
    assert h[v].rc == (AllRefs(h) + (held + multiset(immortals)))[v];
    forall y: Ref | y < |h| && y != v
      ensures !IsChild(h[y].payload, v)
    {
      RefsBelow(h, y);
      assert Refs(y, h[y].payload)[v] <= AllRefs(h)[v];
      match h[y].payload
      case Node(_, fields) =>
        if j :| 0 <= j < |fields| && fields[j] == Some(v) {
          PresentHas(fields, Some(y), j);
        }
      case _ =>
    }
  }

  /** Levels and lazy marks are as they were. */
  ghost predicate SameMarks(cells: Cells, cells': Cells) {
    |cells'| == |cells| && forall i: Ref :: i < |cells| ==> cells'[i].level == cells[i].level && cells'[i].lazy == cells[i].lazy
  }

  /** What `root` reached has been raised to `level`, and nothing else. */
  ghost predicate Lifted(was: Cells, now: Cells, root: Ref, level: Level) {
    |now| == |was| && forall i: Ref :: i < |was| ==>
      now[i].level == if Reaches(was, root, i) && was[i].level < level then level else was[i].level
  }

  class Heap {
    var cells: Cells
    /** Every immortal cell, for the sweep at exit. */
    var immortals: seq<Ref>
    var dead: seq<Ref>
    var draining: bool

    /** The same objects, counted plainly. */
    ghost var plain: Store
    /** The references of every thread's registers, slots and temporaries. */
    ghost var held: multiset<Ref>

    ghost predicate Counted()
      reads this
    {
      |cells| == |plain| && Sound(cells, immortals, plain, held, dead) && (!draining ==> dead == [])
    }

    ghost predicate Valid()
      reads this
    {
      Counted() && Closed(cells)
    }

    constructor ()
      ensures Valid() && cells == [] && held == multiset{} && !draining
    {
      cells, immortals, dead, draining := [], [], [], false;
      plain, held := [], multiset{};
    }

    // ---- counting ---------------------------------------------------------

    /** One more reference; the fault cannot happen on anything referenced. */
    method Retain(x: Ref)
      requires Valid() && x < |plain| && plain[x].rc > 0
      modifies this
      ensures Valid()
      ensures plain == old(plain)[x := old(plain)[x].(rc := old(plain)[x].rc + 1)]
      ensures held == old(held) + multiset{x} && draining == old(draining) && immortals == old(immortals)
      ensures SameMarks(old(cells), cells)
      ensures forall i: Ref :: i < |cells| ==> cells[i].payload == old(cells)[i].payload
    {
      hide Exact;
      SoundRetain(cells, immortals, plain, held, dead, x);
      RetainCounts(cells[x], plain[x]);
      TableUpdate(cells, immortals, x, Retained(cells[x]).value);
      ClosedCount(cells, x, Retained(cells[x]).value);
      cells := cells[x := Retained(cells[x]).value];
      plain := plain[x := plain[x].(rc := plain[x].rc + 1)];
      held := held + multiset{x};
    }

    /** Drop one reference.  What dies is destroyed, and whatever that kills: exactly
        what the plain counts say, whatever the levels. */
    method Release(x: Ref) returns (ghost log: seq<Ref>)
      requires Valid() && held[x] > 0
      modifies this
      ensures Valid()
      ensures held == old(held) - multiset{x} && draining == old(draining) && immortals == old(immortals)
      ensures SameMarks(old(cells), cells) && Frees(old(plain), plain, log)
      decreases Live(plain), 3
    {
      hide Sound, Exact, Frees, Live;
      SoundRelease(cells, immortals, plain, held, dead, x);
      var (c, died) := Released(cells[x]).value;
      ClosedCount(cells, x, c);
      cells := cells[x := c];
      plain := plain[x := plain[x].(rc := plain[x].rc - 1)];
      held := held - multiset{x};
      FreesNothing(old(plain), plain);
      log := [];
      if died {
        dead := dead + [x];
        if !draining {
          FreesShrinks(old(plain), plain, []);
          ghost var h1 := plain;
          draining := true;
          log := Drain();
          draining := false;
          FreesCompose(old(plain), h1, plain, [], log);
          assert [] + log == log;
        }
      }
    }

    method Drain() returns (ghost log: seq<Ref>)
      requires Valid() && draining
      modifies this
      ensures Valid() && dead == []
      ensures held == old(held) && draining && immortals == old(immortals)
      ensures SameMarks(old(cells), cells) && Frees(old(plain), plain, log)
      decreases Live(plain), 2
    {
      hide Sound, Exact, Frees, Live;
      FreesNothing(plain, plain);
      log := [];
      while |dead| > 0
        invariant Valid() && draining
        invariant held == old(held) && immortals == old(immortals)
        invariant SameMarks(old(cells), cells) && Frees(old(plain), plain, log) && Live(plain) <= old(Live(plain))
        decreases Live(plain)
      {
        ghost var h1 := plain;
        var d := dead[|dead| - 1];
        PopSound(cells, immortals, plain, held, dead);
        dead := dead[..|dead| - 1];
        ghost var more := Destroy(d);
        FreesShrinks(h1, plain, more);
        FreesCompose(old(plain), h1, plain, log, more);
        log := log + more;
        FreesShrinks(old(plain), plain, log);
      }
    }

    /** Free `d` and release its children, but not a weak self edge. */
    method Destroy(d: Ref) returns (ghost log: seq<Ref>)
      requires d !in dead && Sound(cells, immortals, plain, held, dead + [d]) && Closed(cells) && draining
      modifies this
      ensures Valid()
      ensures held == old(held) && draining && immortals == old(immortals)
      ensures SameMarks(old(cells), cells) && Frees(old(plain), plain, log) && |log| > 0
      decreases Live(plain), 1
    {
      hide Exact, Frees, Live, Refs;
      SoundFree(cells, immortals, plain, held, dead, d);
      var p := cells[d].payload;
      ClosedFree(cells, d, cells[d].(payload := Freed));
      cells := cells[d := cells[d].(payload := Freed)];
      plain := plain[d := plain[d].(payload := Freed)];
      held := held + Refs(d, p);
      FreesShrinks(old(plain), plain, [d]);
      ghost var h1 := plain;
      ghost var more := ReleasePayload(d, p);
      FreesCompose(old(plain), h1, plain, [d], more);
      log := [d] + more;
    }

    method ReleasePayload(self: Ref, p: Payload) returns (ghost log: seq<Ref>)
      requires Valid() && IsData(p) && Refs(self, p) <= held
      modifies this
      ensures Valid()
      ensures held == old(held) - Refs(self, p) && draining == old(draining) && immortals == old(immortals)
      ensures SameMarks(old(cells), cells) && Frees(old(plain), plain, log)
      decreases Live(plain), 5
    {
      hide Sound, Exact, Frees, Live;
      FreesNothing(plain, plain);
      log := [];
      match p {
        case Node(_, fields) => log := ReleaseRow(fields, Some(self));
        case Link(target) => log := Release(target);
        case _ =>
      }
    }

    method ReleaseRow(fields: seq<Option<Ref>>, skip: Option<Ref>) returns (ghost log: seq<Ref>)
      requires Valid() && Present(fields, skip) <= held
      modifies this
      ensures Valid()
      ensures held == old(held) - Present(fields, skip) && draining == old(draining) && immortals == old(immortals)
      ensures SameMarks(old(cells), cells) && Frees(old(plain), plain, log)
      decreases Live(plain), 4
    {
      hide Sound, Exact, Frees, Live;
      FreesNothing(plain, plain);
      log := [];
      assert fields[0..] == fields;
      for i := 0 to |fields|
        invariant Valid()
        invariant Present(fields[i..], skip) <= held
        invariant held - Present(fields[i..], skip) == old(held) - Present(fields, skip)
        invariant draining == old(draining) && immortals == old(immortals) && SameMarks(old(cells), cells)
        invariant Frees(old(plain), plain, log) && Live(plain) <= old(Live(plain))
      {
        assert fields[i..][1..] == fields[i + 1..];
        if fields[i].Some? && fields[i] != skip {
          Peel(held, fields[i].value, Present(fields[i + 1..], skip));
          ghost var h1 := plain;
          ghost var more := Release(fields[i].value);
          FreesCompose(old(plain), h1, plain, log, more);
          log := log + more;
          FreesShrinks(old(plain), plain, log);
        } else {
          assert Present(fields[i..], skip) == Present(fields[i + 1..], skip);
        }
      }
    }

    // ---- marking ----------------------------------------------------------

    /** Raise `root` and everything it reaches to `level`, without recursion: exactly
        those of them that are below it. */
    method MarkLevel(root: Ref, level: Level)
      requires Valid() && !draining && held[root] > 0
      modifies this
      ensures Valid() && !draining && held == old(held)
      ensures Marked(old(cells), cells, root, level)
      ensures |plain| == |old(plain)| && forall i: Ref :: i < |plain| ==> plain[i].payload == old(plain)[i].payload
      ensures level < IMMORTAL ==> immortals == old(immortals)
    {
      hide Exact, Marked, Walking, Closed, Reaches, AllCounted, Sound;
      SoundParts(cells, immortals, plain, held, dead);
      HeldExists(plain, held, immortals, root);
      WalkBegins(cells, root, level);
      var work: seq<Ref> := [root];
      assert AllCounted(plain, work) by {
        JustOne(plain, root);
      }
      ghost var was, h := cells, plain;
      while |work| > 0
        invariant Counted() && |cells| == |plain| && !draining && held == old(held)
        invariant Walking(was, cells, work, root, level)
        invariant SamePayloads(h, plain) && AllCounted(plain, work)
        invariant level < IMMORTAL ==> immortals == old(immortals)
        decreases Below(cells, level), |work|
      {
        ghost var before := cells;
        var v := work[|work| - 1];
        assert work == work[..|work| - 1] + [v];
        OneCounted(plain, work, v);
        work := work[..|work| - 1];
        if cells[v].level < level {
          ghost var g := plain;
          var more := Visit(v, level);
          StillCounted(g, plain, work, v, more);
          WalkRaises(was, before, work, v, more, root, level);
          BelowFalls(before, v, cells[v], level);
          work := work + more;
        } else {
          WalkSkips(was, cells, work, v, root, level);
          StillCounted(plain, plain, work, v, []);
          assert work + [] == work;
        }
      }
      assert work == [];
      WalkEnds(was, cells, root, level);
    }

    /** Raise `v` and list the children that still have to be visited. */
    method Visit(v: Ref, level: Level) returns (more: seq<Ref>)
      requires Counted() && !draining && v < |cells| && plain[v].rc > 0 && cells[v].level < level
      modifies this
      ensures Counted() && !draining && held == old(held) && |cells| == |plain|
      ensures cells == old(cells)[v := Raised(old(cells)[v], level)] && SamePayloads(old(plain), plain)
      ensures forall i: Ref :: i < |plain| ==> plain[i].rc >= old(plain)[i].rc
      ensures level < IMMORTAL ==> immortals == old(immortals)
      ensures AllCounted(plain, more)
      ensures forall c :: c in more ==> c < |cells| && IsChild(old(cells)[v].payload, c)
      ensures forall c: Ref :: IsChild(old(cells)[v].payload, c) ==> c < |cells| && (cells[c].level >= level || c in more)
    {
      hide Exact, IsChild;
      var kids := Children(cells[v].payload);
      KidsCounted(plain, held + multiset(immortals), v);
      ghost var h := plain;
      Raise(v, level);
      more := TooLow(kids, level);
      forall c: Ref | IsChild(old(cells)[v].payload, c)
        ensures c < |cells| && (cells[c].level >= level || c in more)
      {
        var j :| 0 <= j < |kids| && kids[j] == Some(c);
      }
      forall c | c in more
        ensures c < |cells| && IsChild(old(cells)[v].payload, c) && plain[c].rc > 0
      {
        var j :| 0 <= j < |kids| && kids[j] == Some(c);
      }
    }

    /** Raise one cell, listing it when it becomes immortal. */
    method Raise(v: Ref, level: Level)
      requires Counted() && !draining && v < |cells| && plain[v].rc > 0 && cells[v].level < level
      modifies this
      ensures Counted() && !draining && held == old(held)
      ensures cells == old(cells)[v := Raised(old(cells)[v], level)] && SamePayloads(old(plain), plain)
      ensures forall i: Ref :: i < |plain| ==> plain[i].rc >= old(plain)[i].rc
      ensures level < IMMORTAL ==> immortals == old(immortals)
    {
      hide Exact;
      SoundRaise(cells, immortals, plain, held, v, level);
      cells := cells[v := Raised(cells[v], level)];
      if level == IMMORTAL {
        immortals := immortals + [v];
        plain := plain[v := plain[v].(rc := plain[v].rc + 1)];
      }
    }

    /** The children that still have to be visited. */
    method TooLow(kids: seq<Option<Ref>>, level: Level) returns (more: seq<Ref>)
      requires forall j :: 0 <= j < |kids| && kids[j].Some? ==> kids[j].value < |cells|
      ensures forall c :: c in more ==> Some(c) in kids
      ensures forall j :: 0 <= j < |kids| && kids[j].Some? ==> cells[kids[j].value].level >= level || kids[j].value in more
    {
      more := [];
      for j := 0 to |kids|
        invariant forall c :: c in more ==> Some(c) in kids
        invariant forall i :: 0 <= i < j && kids[i].Some? ==> cells[kids[i].value].level >= level || kids[i].value in more
      {
        if kids[j].Some? && cells[kids[j].value].level < level {
          more := more + [kids[j].value];
        }
      }
    }

    // ---- writing cells others may reach -----------------------------------

    /** A fresh local cell, held once, taking over references the caller held. */
    method New(p: Payload) returns (x: Ref)
      requires Valid() && !draining && IsData(p) && !p.Freed? && Refs(|cells|, p) <= held
      requires KidsAtLeast(cells, p, LOCAL)
      modifies this
      ensures Valid() && !draining && immortals == old(immortals)
      ensures x == |old(cells)| && cells == old(cells) + [Cell(LOCAL, 1, Plain, p)] && plain == old(plain) + [Obj(1, 0, p)]
      ensures held == old(held) - Refs(x, p) + multiset{x}
    {
      hide Exact, Refs;
      x := |cells|;
      SoundNew(cells, immortals, plain, held, p);
      cells := cells + [Cell(LOCAL, 1, Plain, p)];
      plain := plain + [Obj(1, 0, p)];
      held := held - Refs(x, p) + multiset{x};
    }

    /** Store a payload: the references it takes in come from hand, and those of the
        old one go there.  Nothing the cell reaches may be less shared than it is. */
    method Write(v: Ref, p: Payload, lazy: Lazy, ghost held': multiset<Ref>)
      requires Valid() && !draining && v < |cells| && !cells[v].payload.Freed? && IsData(p) && !p.Freed?
      requires forall x: Ref :: held'[x] + Refs(v, p)[x] == held[x] + Refs(v, cells[v].payload)[x]
      requires KidsAtLeast(cells, p, cells[v].level)
      modifies this
      ensures Valid() && !draining && immortals == old(immortals) && held == held'
      ensures cells == old(cells)[v := old(cells)[v].(payload := p, lazy := lazy)]
      ensures plain == old(plain)[v := old(plain)[v].(payload := p)]
    {
      hide Exact, Refs, IsChild, Closed;
      SoundWrite(cells, immortals, plain, held, v, p, lazy, held');
      PublishIsClosed(cells, v, p, lazy);
      cells := cells[v := cells[v].(payload := p, lazy := lazy)];
      plain := plain[v := plain[v].(payload := p)];
      held := held';
    }

    /** Take a reference on each child in a row, but not the weak edge `skip`. */
    method RetainRow(row: seq<Option<Ref>>, skip: Option<Ref>)
      requires Valid() && !draining
      requires forall j :: 0 <= j < |row| && row[j].Some? ==> row[j].value < |plain| && plain[row[j].value].rc > 0
      modifies this
      ensures Valid() && !draining && immortals == old(immortals)
      ensures held == old(held) + Present(row, skip)
      ensures SamePayloads(old(plain), plain) && SameMarks(old(cells), cells)
    {
      hide Sound, Closed, Exact;
      assert row[0..] == row;
      for i := 0 to |row|
        invariant Valid() && !draining && immortals == old(immortals)
        invariant held + Present(row[i..], skip) == old(held) + Present(row, skip)
        invariant SamePayloads(old(plain), plain) && SameMarks(old(cells), cells)
        invariant forall j :: 0 <= j < |row| && row[j].Some? ==> row[j].value < |plain| && plain[row[j].value].rc > 0
      {
        assert row[i..][1..] == row[i + 1..];
        if row[i].Some? && row[i] != skip {
          assert Present(row[i..], skip) == multiset{row[i].value} + Present(row[i + 1..], skip);
          Retain(row[i].value);
        } else {
          assert Present(row[i..], skip) == Present(row[i + 1..], skip);
        }
      }
    }

    /** A push or a set.  When the caller gave up its reference and it is the only
        one, the vector is written in place; otherwise the result is a fresh one and
        the old stays as it was.  (No vector is its own element.) */
    method VecUpdate(v: Ref, at: int, x: Ref, push: bool, owned: bool) returns (ok: bool, r: Ref, ghost log: seq<Ref>)
      requires Valid() && !draining && multiset{v, x} <= held
      requires v < |cells| && (IsVec(cells[v].payload) ==> Some(v) !in cells[v].payload.fields)
      modifies this
      ensures Valid() && !draining
      ensures ok <==> IsVec(old(cells)[v].payload) && (push || 0 <= at < |old(cells)[v].payload.fields|)
      ensures ok ==> r < |cells| && cells[r].payload == Node(Vec, VecWith(old(cells)[v].payload.fields, at, x, push))
      ensures ok ==> var was, row := old(cells)[v].payload.fields, cells[r].payload.fields;
                |row| == (if push then |was| + 1 else |was|) && PutAt(was, row, if push then |was| else at, x)
      ensures ok && owned && Unique(old(cells)[v]) ==>
                r == v && held == old(held)
                && Frees(old(plain)[v := old(plain)[v].(payload := Node(Vec, VecWith(old(cells)[v].payload.fields, at, x, push)))], plain, log)
      ensures ok && !(owned && Unique(old(cells)[v])) ==>
                r == |old(cells)| && held == old(held) + multiset{r} && SamePayloads(old(plain), plain[..r])
      ensures !ok ==> cells == old(cells) && held == old(held)
    {
      hide Sound, Closed, Frees, IsChild, VecWith, PutAt;
      ok, r, log := IsVec(cells[v].payload), v, [];
      if !ok {
        return;
      }
      var fields := cells[v].payload.fields;
      ok := push || 0 <= at < |fields|;
      if !ok {
        return;
      }
      VecWithAt(fields, at, x, push);
      if owned && Unique(cells[v]) {
        log := VecInPlace(v, at, x, push);
      } else {
        r := VecFresh(v, at, x, push);
      }
    }

    /** If other threads may reach `v`, let them reach `x`. */
    method ShareElement(v: Ref, x: Ref)
      requires Valid() && !draining && held[x] > 0 && v < |cells| && cells[v].level < IMMORTAL
      modifies this
      ensures Valid() && !draining && held == old(held)
      ensures |cells| == |old(cells)| && cells[v] == old(cells)[v] && x < |cells| && cells[v].level <= cells[x].level
      ensures SamePayloads(old(plain), plain)
    {
      hide Sound, Closed, Marked;
      InHand(cells, immortals, plain, held, x);
      if cells[v].level != LOCAL {
        ghost var was := cells;
        MarkLevel(x, SHARED);
        MarkedAtLeast(was, cells, x, SHARED, v);
      }
    }

    /** Put `x` in its place, taking a reference on it; the reference on what was
        there comes to hand. */
    method Place(v: Ref, at: int, x: Ref, push: bool) returns (was: Option<Ref>)
      requires Valid() && !draining && held[x] > 0 && x != v && x < |cells| && v < |cells| && cells[v].level <= cells[x].level
      requires IsVec(cells[v].payload) && Some(v) !in cells[v].payload.fields
      requires push || 0 <= at < |cells[v].payload.fields|
      modifies this
      ensures Valid() && !draining && held == old(held) + HeldIn(was) && (was.Some? ==> was.value != v)
      ensures v < |old(plain)|
      ensures SamePayloads(old(plain)[v := old(plain)[v].(payload := Node(Vec, VecWith(old(cells)[v].payload.fields, at, x, push)))], plain)
    {
      hide Sound, Closed, IsChild, VecWith, Refs;
      var fields := cells[v].payload.fields;
      ghost var h := plain;
      was := if push then None else fields[at];
      InHand(cells, immortals, plain, held, x);
      SamePayload(cells, immortals, plain, held, v);
      Retain(x);
      SamePayload(cells, immortals, plain, held, v);
      var q := Node(Vec, VecWith(fields, at, x, push));
      VecRefs(v, fields, at, x, push);
      VecKids(cells, v, fields, at, x, push);
      Write(v, q, cells[v].lazy, old(held) + HeldIn(was));
    }

    /** Write an element of a vector only the caller can see.  If other threads may
        reach it, so may they reach the element. */
    method VecInPlace(v: Ref, at: int, x: Ref, push: bool) returns (ghost log: seq<Ref>)
      requires Valid() && !draining && multiset{v, x} <= held && v < |cells| && Unique(cells[v])
      requires IsVec(cells[v].payload) && Some(v) !in cells[v].payload.fields
      requires push || 0 <= at < |cells[v].payload.fields|
      modifies this
      ensures Valid() && !draining && held == old(held)
      ensures var q := Node(Vec, VecWith(old(cells)[v].payload.fields, at, x, push));
              v < |cells| && cells[v].payload == q && Frees(old(plain)[v := old(plain)[v].(payload := q)], plain, log)
    {
      hide Sound, Closed, Frees, VecWith;
      ghost var q := Node(Vec, VecWith(cells[v].payload.fields, at, x, push));
      ghost var want := plain[v := plain[v].(payload := q)];
      NotTwice(cells, immortals, plain, held, v, x);
      ShareElement(v, x);
      var was := Place(v, at, x, push);
      ghost var h := plain;
      assert SamePayloads(want, h);
      if was.Some? {
        log := Release(was.value);
      } else {
        FreesNothing(h, plain);
        log := [];
      }
      HeldThrough(cells, immortals, h, plain, log, held, v);
      FreesAlike(want, h, plain, log);
    }

    /** The fresh vector: every element is held once more. */
    method VecFresh(v: Ref, at: int, x: Ref, push: bool) returns (r: Ref)
      requires Valid() && !draining && multiset{v, x} <= held && v < |cells|
      requires IsVec(cells[v].payload) && (push || 0 <= at < |cells[v].payload.fields|)
      modifies this
      ensures Valid() && !draining && held == old(held) + multiset{r}
      ensures r == |old(cells)| && |cells| == r + 1 == |plain| && SamePayloads(old(plain), plain[..r])
      ensures cells[r].payload == Node(Vec, VecWith(old(cells)[v].payload.fields, at, x, push))
    {
      hide Sound, Closed, Refs;
      var row := VecWith(cells[v].payload.fields, at, x, push);
      r := |cells|;
      RowCounted(cells, immortals, plain, held, v, at, x, push);
      RetainRow(row, Some(r));
      NodeRefs(r, row);
      FinishFresh(row);
    }

    method FinishFresh(row: seq<Option<Ref>>)
      requires Valid() && !draining && Present(row, Some(|cells|)) <= held && KidsAtLeast(cells, Node(Vec, row), LOCAL)
      modifies this
      ensures Valid() && !draining && |cells| == |old(cells)| + 1 && SamePayloads(old(plain), plain[..|old(plain)|])
      ensures held == old(held) - Present(row, Some(|old(cells)|)) + multiset{|old(cells)|}
      ensures cells[|old(cells)|].payload == Node(Vec, row)
    {
      hide Sound, Closed, Refs, IsChild;
      NodeRefs(|cells|, row);
      var r := New(Node(Vec, row));
    }

    // ---- boxes and lazy slots ---------------------------------------------

    /** Release what a cell holds, leaving the cell. */
    method EmptyCell(x: Ref) returns (ghost log: seq<Ref>)
      requires Valid() && !draining && held[x] > 0 && x < |cells|
      modifies this
      ensures Valid() && !draining && held == old(held) && immortals == old(immortals)
      ensures x < |old(plain)| && Frees(old(plain)[x := old(plain)[x].(payload := Scalar(0))], plain, log)
      ensures SameMarks(old(cells), cells) && x < |cells| && cells[x].payload == Scalar(0)
    {
      hide Sound, Closed, Frees, Refs;
      InHand(cells, immortals, plain, held, x);
      PayloadIsData(cells, immortals, plain, held, x);
      var p := cells[x].payload;
      ScalarIsLeaf(cells, x);
      Write(x, Scalar(0), cells[x].lazy, held + Refs(x, p));
      ghost var h := plain;
      log := ReleasePayload(x, p);
      assert held == old(held);
      HeldThrough(cells, immortals, h, plain, log, held, x);
    }

    /** Take a reference on everything the payload would own in the cell `self`. */
    method RetainPayload(self: Ref, p: Payload)
      requires Valid() && !draining && IsData(p)
      requires forall c: Ref :: IsChild(p, c) ==> c < |plain| && plain[c].rc > 0
      modifies this
      ensures Valid() && !draining && immortals == old(immortals)
      ensures held == old(held) + Refs(self, p)
      ensures SamePayloads(old(plain), plain) && SameMarks(old(cells), cells)
    {
      hide Sound, Closed;
      match p {
        case Node(_, fields) =>
          forall j | 0 <= j < |fields| && fields[j].Some?
            ensures fields[j].value < |plain| && plain[fields[j].value].rc > 0
          {
            assert fields[j] in fields;
            assert IsChild(p, fields[j].value);
          }
          RetainRow(fields, Some(self));
        case Link(target) =>
          assert IsChild(p, target);
          Retain(target);
        case _ =>
      }
    }

    /** Make `x` a copy of `v`, whose children are as shared as `x` is.  A child equal
        to `x` becomes its weak self edge. */
    method CopyPayload(x: Ref, v: Ref)
      requires Valid() && !draining && held[x] > 0 && held[v] > 0 && x != v && x < |cells| && v < |cells|
      requires cells[v].payload != Link(x) && cells[x].level <= cells[v].level
      modifies this
      ensures Valid() && !draining && held == old(held) + Refs(x, old(cells)[x].payload)
      ensures x < |old(plain)| && SamePayloads(old(plain)[x := old(plain)[x].(payload := old(cells)[v].payload)], plain)
      ensures |cells| == |old(cells)| && cells[x].level == old(cells)[x].level && cells[x].lazy == old(cells)[v].lazy
      ensures cells[x].payload == old(cells)[v].payload
      ensures forall i: Ref :: i < |cells| && i != x ==> cells[i].level == old(cells)[i].level && cells[i].lazy == old(cells)[i].lazy
    {
      hide Sound, Closed, Refs, IsChild;
      InHand(cells, immortals, plain, held, x);
      InHand(cells, immortals, plain, held, v);
      PayloadIsData(cells, immortals, plain, held, v);
      var p := cells[v].payload;
      KidsReady(cells, immortals, plain, held, v);
      RetainPayload(x, p);
      SamePayload(cells, immortals, plain, held, x);
      SamePayload(cells, immortals, plain, held, v);
      ClosedKids(cells, v, cells[x].level);
      Write(x, p, cells[v].lazy, old(held) + Refs(x, cells[x].payload));
    }

    /** Patch a let box with a copy of `v`.  A box other threads can reach takes in
        nothing they cannot. */
    method PatchBox(box: Ref, v: Ref) returns (ghost log: seq<Ref>, ghost mid: Store)
      requires Valid() && !draining && multiset{box, v} <= held && box < |cells| && v < |cells|
      requires cells[v].payload != Link(box)
      modifies this
      ensures Valid() && !draining && held == old(held)
      ensures |cells| == |old(cells)| && cells[box].payload == old(cells)[v].payload && cells[box].level == old(cells)[box].level
      ensures box != v ==>
                box < |old(plain)| && Frees(old(plain)[box := old(plain)[box].(payload := Scalar(0))], mid, log)
                && box < |mid| && SamePayloads(mid[box := mid[box].(payload := old(cells)[v].payload)], plain)
    {
      hide Sound, Closed, Frees, Refs, Marked;
      log, mid := [], plain;
      if box == v {
        return;
      }
      SamePayload(cells, immortals, plain, held, v);
      ghost var emptied := plain[box := plain[box].(payload := Scalar(0))];
      log := EmptyCell(box);
      mid := plain;
      HeldThrough(cells, immortals, emptied, plain, log, held, v);
      MatchLevel(v, cells[box].level, box);
      SamePayload(cells, immortals, plain, held, v);
      SamePayload(cells, immortals, plain, held, box);
      CopyPayload(box, v);
      LeafRefs(box);
    }

    /** Raise `v` to the level of a cell about to take its contents in. */
    method MatchLevel(v: Ref, level: Level, ghost x: Ref)
      requires Valid() && !draining && held[v] > 0 && v < |cells| && x < |cells| && cells[x].level >= level
      modifies this
      ensures Valid() && !draining && held == old(held) && |cells| == |old(cells)|
      ensures cells[x] == old(cells)[x] && cells[v].level >= level && SamePayloads(old(plain), plain)
      ensures cells[v].payload == old(cells)[v].payload && cells[v].lazy == old(cells)[v].lazy
    {
      hide Sound, Closed, Marked;
      if level != LOCAL {
        ghost var was := cells;
        MarkLevel(v, level);
        MarkedAtLeast(was, cells, v, level, x);
        MarkedSame(was, cells, v, level, v);
      }
    }

    /** Move the payload of `v` into an emptied local box. */
    method MovePayload(box: Ref, v: Ref)
      requires Valid() && !draining && held[box] > 0 && held[v] > 0 && box != v && box < |cells| && v < |cells|
      requires cells[box].level == LOCAL && cells[box].payload == Scalar(0)
      requires Some(v) !in Children(cells[v].payload) && Some(box) !in Children(cells[v].payload)
      modifies this
      ensures Valid() && !draining && held == old(held) && immortals == old(immortals)
      ensures |cells| == |old(cells)| && cells[box].payload == old(cells)[v].payload && cells[v].payload == Scalar(0)
      ensures box < |old(plain)| && v < |old(plain)|
      ensures plain == old(plain)[v := old(plain)[v].(payload := Scalar(0))][box := old(plain)[box].(payload := old(cells)[v].payload)]
    {
      hide Sound, Closed, Refs, IsChild;
      InHand(cells, immortals, plain, held, box);
      InHand(cells, immortals, plain, held, v);
      PayloadIsData(cells, immortals, plain, held, v);
      var p, lazy := cells[v].payload, cells[v].lazy;
      ScalarIsLeaf(cells, v);
      LeafRefs(box);
      RefsElsewhere(box, v, p);
      Write(v, Scalar(0), Plain, held + Refs(v, p));
      LocalTakesAll(cells, old(cells), v, p);
      Write(box, p, lazy, old(held));
    }

    /** Release the last reference to a leaf. */
    method DropLeaf(v: Ref, ghost box: Ref)
      requires Valid() && !draining && held[v] > 0 && held[box] > 0 && box != v && v < |cells| && box < |cells|
      requires plain[v].rc == 1 && cells[v].payload == Scalar(0)
      modifies this
      ensures Valid() && !draining && held == old(held) - multiset{v}
      ensures SamePayloads(old(plain)[v := old(plain)[v].(payload := Freed)], plain)
      ensures box < |cells| && cells[box].payload == old(cells)[box].payload
    {
      hide Sound, Closed, Frees, Exact;
      ghost var h, before := plain, held;
      SoundParts(cells, immortals, plain, held, dead);
      SamePayload(cells, immortals, plain, held, v);
      SamePayload(cells, immortals, plain, held, box);
      ghost var gone := Release(v);
      SoundParts(cells, immortals, plain, held, dead);
      JustThat(h, plain, before, multiset(immortals), gone, v);
      HeldThrough(cells, immortals, h, plain, gone, held, box);
    }

    /** Patch `box` by moving the payload of `v` in, when the caller's is the only
        reference to it and neither cell is a child of it. */
    method StealPayload(box: Ref, v: Ref) returns (ok: bool, ghost log: seq<Ref>, ghost mid: Store)
      requires Valid() && !draining && held[box] > 0 && held[v] > 0 && box < |cells| && v < |cells|
      modifies this
      ensures Valid() && !draining
      ensures ok <==> box != v && UniqueLocal(old(cells)[v]) && old(cells)[box].level == LOCAL
                      && Some(v) !in Children(old(cells)[v].payload) && Some(box) !in Children(old(cells)[v].payload)
      ensures ok ==>
                && held == old(held) - multiset{v} && box < |cells| && cells[box].payload == old(cells)[v].payload
                && box < |old(plain)| && Frees(old(plain)[box := old(plain)[box].(payload := Scalar(0))], mid, log)
                && box < |mid| && v < |mid|
                && SamePayloads(mid[box := mid[box].(payload := old(cells)[v].payload)][v := mid[v].(payload := Freed)], plain)
      ensures !ok ==> cells == old(cells) && held == old(held)
    {
      hide Sound, Closed, Frees, Refs, Exact;
      var p := cells[v].payload;
      log, mid := [], plain;
      ok := box != v && UniqueLocal(cells[v]) && cells[box].level == LOCAL && Some(v) !in Children(p) && Some(box) !in Children(p);
      if ok {
        SamePayload(cells, immortals, plain, held, v);
        ghost var was := plain;
        LocalCount(cells, immortals, plain, held, v);
        ghost var emptied := plain[box := plain[box].(payload := Scalar(0))];
        log := EmptyCell(box);
        mid := plain;
        HeldThrough(cells, immortals, emptied, plain, log, held, v);
        SoundParts(cells, immortals, mid, held, dead);
        StillAlone(was, held + multiset(immortals), mid, log, box, v);
        MovePayload(box, v);
        DropLeaf(v, box);
      }
    }

    /** Claim a lazy slot for forcing: the first thread to try wins, and the closure
        it is to call stays the slot's. */
    method Claim(v: Ref) returns (won: bool)
      requires Valid() && !draining && held[v] > 0 && v < |cells|
      modifies this
      ensures Valid() && !draining && held == old(held) && plain == old(plain)
      ensures won <==> old(cells)[v].lazy.Unforced?
      ensures cells == if won then old(cells)[v := old(cells)[v].(lazy := Forcing)] else old(cells)
    {
      hide Exact;
      won := cells[v].lazy.Unforced?;
      if won {
        assert Encodes(cells[v].(lazy := Forcing), plain[v]);
        EncodedUpdate(cells, plain, v, cells[v].(lazy := Forcing), plain[v]);
        assert plain[v := plain[v]] == plain;
        TableUpdate(cells, immortals, v, cells[v].(lazy := Forcing));
        ClosedCount(cells, v, cells[v].(lazy := Forcing));
        cells := cells[v := cells[v].(lazy := Forcing)];
      }
    }

    /** The slot's closure answered with the slot itself: the claim is given back, with
        the reference on the answer, and nothing else changes. */
    method Withdraw(v: Ref) returns (ghost log: seq<Ref>)
      requires Valid() && !draining && held[v] > 1 && v < |cells| && cells[v].lazy.Forcing?
      modifies this
      ensures Valid() && !draining && held == old(held) - multiset{v} && Frees(old(plain), plain, log)
      ensures |cells| == |old(cells)| && cells[v].lazy.Unforced? && cells[v].payload == old(cells)[v].payload
      ensures forall i: Ref :: i < |cells| && i != v ==> cells[i].lazy == old(cells)[i].lazy
      ensures forall i: Ref :: i < |cells| ==> cells[i].level == old(cells)[i].level
    {
      hide Exact, Frees;
      var c := cells[v].(lazy := Unforced);
      EncodedUpdate(cells, plain, v, c, plain[v]);
      assert plain[v := plain[v]] == plain;
      TableUpdate(cells, immortals, v, c);
      ClosedCount(cells, v, c);
      cells := cells[v := c];
      log := Release(v);
      HeldKept(old(plain), plain, log, immortals, held, [], v);
    }

    /** Write the forced value into the slot this thread claimed.  Its closure and the
        caller's reference on the value are dropped once the slot has been replaced. */
    method Publish(v: Ref, forced: Ref) returns (ghost mid: Store, ghost log: seq<Ref>)
      requires Valid() && !draining && held[v] > 0 && held[forced] > 0 && v != forced
      requires v < |cells| && forced < |cells| && cells[v].lazy.Forcing? && cells[v].payload.Link?
      requires cells[v].level >= SHARED && cells[forced].payload != Link(v)
      modifies this
      ensures Valid() && !draining && held == old(held) - multiset{forced}
      ensures |cells| == |old(cells)| && cells[v].level == old(cells)[v].level
      ensures cells[v].payload == old(cells)[forced].payload && cells[v].lazy == old(cells)[forced].lazy
      ensures forall i: Ref :: i < |cells| && i != v ==> cells[i].lazy == old(cells)[i].lazy
      ensures Lifted(old(cells), cells, forced, if old(cells)[v].level == IMMORTAL then IMMORTAL else SHARED)
      ensures v < |old(plain)| && SamePayloads(old(plain)[v := old(plain)[v].(payload := old(cells)[forced].payload)], mid)
      ensures Frees(mid, plain, log)
    {
      hide Sound, Closed, Frees, Refs;
      var f := TakeIn(v, forced);
      mid := plain;
      log := DropTwo(f, forced);
      HeldThrough(cells, immortals, mid, plain, log, held, v);
    }

    /** Mark the forced value to match the slot and copy it in; the reference on the
        slot's closure comes to hand. */
    method TakeIn(v: Ref, forced: Ref) returns (f: Ref)
      requires Valid() && !draining && held[v] > 0 && held[forced] > 0 && v != forced
      requires v < |cells| && forced < |cells| && cells[v].payload.Link?
      requires cells[v].level >= SHARED && cells[forced].payload != Link(v)
      modifies this
      ensures Valid() && !draining && held == old(held) + multiset{f}
      ensures |cells| == |old(cells)| && cells[v].level == old(cells)[v].level
      ensures cells[v].payload == old(cells)[forced].payload && cells[v].lazy == old(cells)[forced].lazy
      ensures forall i: Ref :: i < |cells| && i != v ==> cells[i].lazy == old(cells)[i].lazy
      ensures Lifted(old(cells), cells, forced, if old(cells)[v].level == IMMORTAL then IMMORTAL else SHARED)
      ensures v < |old(plain)| && SamePayloads(old(plain)[v := old(plain)[v].(payload := old(cells)[forced].payload)], plain)
    {
      hide Sound, Closed, Refs, Marked;
      SamePayload(cells, immortals, plain, held, v);
      SamePayload(cells, immortals, plain, held, forced);
      f := cells[v].payload.target;
      ghost var was := cells;
      MarkLevel(forced, if cells[v].level == IMMORTAL then IMMORTAL else SHARED);
      MarkedForce(was, cells, forced, v);
      MarkedLifts(was, cells, forced, if was[v].level == IMMORTAL then IMMORTAL else SHARED);
      SamePayload(cells, immortals, plain, held, v);
      SamePayload(cells, immortals, plain, held, forced);
      CopyPayload(v, forced);
      LinkRefs(v, f);
    }

    method DropTwo(a: Ref, b: Ref) returns (ghost log: seq<Ref>)
      requires Valid() && !draining && multiset{a, b} <= held
      modifies this
      ensures Valid() && !draining && held == old(held) - multiset{a, b}
      ensures SameMarks(old(cells), cells) && Frees(old(plain), plain, log)
    {
      hide Sound, Closed, Frees;
      log := Release(a);
      ghost var h1 := plain;
      ghost var more := Release(b);
      FreesCompose(old(plain), h1, plain, log, more);
      log := log + more;
    }
  }

  /** Every slot being forced has a thread forcing it. */
  ghost predicate Claimed(cells: Cells, forcing: set<Ref>) {
    forall i: Ref :: i < |cells| && cells[i].lazy.Forcing? ==> i in forcing
  }

  /** Marking and copying are one step here, as the section that reads the slot's level,
      marks to match and writes is taken to be; `Levels.PublishRaces` is about a raise
      between them, which this grain does not have.

      After publishing, every slot still being forced has a thread forcing it exactly
      when the value was not itself a slot somebody was forcing: the copy would be,
      with nobody to finish it. */
  lemma PublishLeavesNoOrphan(cells: Cells, cells': Cells, forcing: set<Ref>, v: Ref, forced: Ref)
    requires |cells'| == |cells| && v < |cells| && forced < |cells| && Claimed(cells, forcing) && cells[v].lazy.Forcing?
    requires cells'[v].lazy == cells[forced].lazy
    requires forall i: Ref :: i < |cells| && i != v ==> cells'[i].lazy == cells[i].lazy
    ensures Claimed(cells', forcing - {v}) <==> !cells[forced].lazy.Forcing?
  {
    if cells[forced].lazy.Forcing? {
      assert v !in forcing - {v};
    }
  }

  /** A lazy slot over a closure of its own. */
  method LazySlot(m: Heap) returns (v: Ref)
    requires m.Valid() && !m.draining
    modifies m
    ensures m.Valid() && !m.draining && v == |old(m.cells)| + 1 && |m.cells| == v + 1 && m.held == old(m.held) + multiset{v}
    ensures forall i: Ref :: i < v - 1 ==> m.cells[i] == old(m.cells)[i]
    ensures m.cells[v].lazy.Unforced? && m.cells[v].payload == Link(v - 1) && m.cells[v].level == LOCAL
    ensures m.cells[v - 1].lazy.Plain? && m.cells[v - 1].payload == Op(None, 0) && m.cells[v - 1].level == LOCAL
  {
    hide Sound, Closed;
    ghost var held := m.held;
    LeafKids(m.cells);
    var f := m.New(Op(None, 0));
    LinkRefs(|m.cells|, f);
    assert KidsAtLeast(m.cells, Link(f), LOCAL);
    v := m.New(Link(f));
    assert KidsAtLeast(m.cells, Link(f), LOCAL);
    m.Write(v, Link(f), Unforced, m.held);
    assert m.held == held + multiset{v};
  }

  lemma LeafKids(cells: Cells)
    ensures KidsAtLeast(cells, Op(None, 0), LOCAL) && Refs(|cells|, Op(None, 0)) == multiset{}
  {
  }

  lemma MarkedRoot(was: Cells, now: Cells, v: Ref)
    requires v < |was| && Marked(was, now, v, SHARED)
    ensures now[v].level >= SHARED
    ensures forall i: Ref :: i < |was| ==> now[i].lazy == was[i].lazy && now[i].payload == was[i].payload
  {
    hide Reaches;
    ReachesItself(was, v);
  }

  /** Two lazy slots, each over a closure of its own, that several threads reach. */
  method TwoSlots() returns (m: Heap, v: Ref, w: Ref)
    ensures fresh(m) && m.Valid() && !m.draining && v < |m.cells| && w < |m.cells| && v != w && m.held[v] > 0 && m.held[w] > 0
    ensures m.cells[v].lazy.Unforced? && m.cells[w].lazy.Unforced? && m.cells[v].level >= SHARED
    ensures m.cells[v].payload.Link? && m.cells[w].payload.Link? && m.cells[w].payload != Link(v)
    ensures forall i: Ref :: i < |m.cells| && i != v && i != w ==> !m.cells[i].lazy.Forcing?
  {
    hide Sound, Closed, Marked;
    m := new Heap();
    v := LazySlot(m);
    w := LazySlot(m);
    ghost var was := m.cells;
    m.MarkLevel(v, SHARED);
    MarkedRoot(was, m.cells, v);
  }

  /** A run in which a slot is published as a copy of a slot that another thread is
      forcing: afterwards both are being forced, and only the second by anybody. */
  method OrphanArises() returns (m: Heap, v: Ref, w: Ref)
    ensures m.Valid() && v < |m.cells| && w < |m.cells| && v != w
    ensures m.cells[v].lazy.Forcing? && !Claimed(m.cells, {w})
  {
    hide Sound, Closed, Frees;
    m, v, w := TwoSlots();
    var mine := m.Claim(v);
    var theirs := m.Claim(w);
    assert mine && theirs && Claimed(m.cells, {v, w});
    ghost var was := m.cells;
    ghost var mid, log := m.Publish(v, w);
    PublishLeavesNoOrphan(was, m.cells, {v, w}, v, w);
    assert {v, w} - {v} == {w};
  }

  lemma MarkedLifts(was: Cells, now: Cells, root: Ref, level: Level)
    requires Marked(was, now, root, level)
    ensures Lifted(was, now, root, level)
  {
    hide Reaches;
  }

  lemma MarkedForce(was: Cells, now: Cells, forced: Ref, v: Ref)
    requires Closed(was) && forced < |was| && v < |was| && was[v].level >= SHARED
    requires Marked(was, now, forced, if was[v].level == IMMORTAL then IMMORTAL else SHARED)
    ensures now[v] == was[v] && now[v].level <= now[forced].level
    ensures forall i: Ref :: i < |was| ==> now[i].lazy == was[i].lazy
  {
    hide Reaches;
    ReachesItself(was, forced);
  }

  lemma LinkRefs(v: Ref, f: Ref)
    ensures Refs(v, Link(f)) == multiset{f}
  {
  }

  /** Everything the payload reaches directly is at least as shared as `level`. */
  ghost predicate KidsAtLeast(cells: Cells, p: Payload, level: Level) {
    forall c: Ref :: IsChild(p, c) ==> c < |cells| && level <= cells[c].level
  }

  function HeldIn(x: Option<Ref>): multiset<Ref> {
    if x.Some? then multiset{x.value} else multiset{}
  }

  lemma NotTwice(cells: Cells, immortals: seq<Ref>, h: Store, held: multiset<Ref>, v: Ref, x: Ref)
    requires Sound(cells, immortals, h, held, []) && multiset{v, x} <= held && v < |h| && Unique(cells[v])
    ensures x != v && !h[v].payload.Freed? && cells[v].level < IMMORTAL
  {
    hide Exact;
    UniqueUnobserved(cells, immortals, h, held, v);
    UniqueMeansOne(cells[v], h[v]);
    assert multiset{v, x}[v] <= held[v];
    NotFreed(h, held + multiset(immortals), v);
  }

  lemma SamePayload(cells: Cells, immortals: seq<Ref>, h: Store, held: multiset<Ref>, x: Ref)
    requires Sound(cells, immortals, h, held, []) && x < |h|
    ensures |cells| == |h| && cells[x].payload == h[x].payload
  {
  }

  lemma PayloadIsData(cells: Cells, immortals: seq<Ref>, h: Store, held: multiset<Ref>, x: Ref)
    requires Sound(cells, immortals, h, held, []) && x < |h|
    ensures |cells| == |h| && IsData(cells[x].payload)
  {
  }

  lemma ScalarIsLeaf(cells: Cells, x: Ref)
    requires x < |cells|
    ensures KidsAtLeast(cells, Scalar(0), cells[x].level) && Refs(x, Scalar(0)) == multiset{}
  {
  }

  lemma LeafRefs(x: Ref)
    ensures Refs(x, Scalar(0)) == multiset{}
  {
  }

  lemma KidsReady(cells: Cells, immortals: seq<Ref>, h: Store, held: multiset<Ref>, v: Ref)
    requires Sound(cells, immortals, h, held, []) && v < |h| && !h[v].payload.Freed?
    ensures forall c: Ref :: IsChild(h[v].payload, c) ==> c < |h| && h[c].rc > 0
  {
    hide Exact, IsChild;
    forall c: Ref | IsChild(h[v].payload, c)
      ensures c < |h| && h[c].rc > 0
    {
      KidCounted(h, held + multiset(immortals), v, c);
    }
  }

  lemma ClosedKids(cells: Cells, v: Ref, level: Level)
    requires Closed(cells) && v < |cells| && level <= cells[v].level
    ensures KidsAtLeast(cells, cells[v].payload, level)
  {
  }

  lemma MarkedSame(was: Cells, now: Cells, x: Ref, level: Level, v: Ref)
    requires Marked(was, now, x, level) && v < |was|
    ensures now[v].payload == was[v].payload && now[v].lazy == was[v].lazy
  {
    hide Reaches;
  }

  lemma RefsElsewhere(box: Ref, v: Ref, p: Payload)
    requires IsData(p) && Some(v) !in Children(p) && Some(box) !in Children(p)
    ensures Refs(box, p) == Refs(v, p)
  {
    if p.Node? {
      PresentElsewhere(p.fields, Some(box), Some(v));
    }
  }

  lemma {:induction false} PresentElsewhere(row: seq<Option<Ref>>, a: Option<Ref>, b: Option<Ref>)
    requires a.Some? && b.Some? && a !in row && b !in row
    ensures Present(row, a) == Present(row, b)
  {
    if |row| > 0 {
      assert row[0] in row;
      PresentElsewhere(row[1..], a, b);
    }
  }

  lemma LocalTakesAll(cells: Cells, was: Cells, v: Ref, p: Payload)
    requires Closed(was) && v < |was| == |cells| && was[v].payload == p
    ensures KidsAtLeast(cells, p, LOCAL)
  {
  }

  lemma LocalCount(cells: Cells, immortals: seq<Ref>, h: Store, held: multiset<Ref>, v: Ref)
    requires Sound(cells, immortals, h, held, []) && v < |h| && UniqueLocal(cells[v])
    ensures h[v].rc == 1 && Exact(h, held + multiset(immortals), multiset{}, [])
  {
    hide Exact;
    UniqueMeansOne(cells[v], h[v]);
  }

  /** A value held once, in hand, stays so when another cell is emptied. */
  lemma StillAlone(h: Store, roots: multiset<Ref>, h': Store, log: seq<Ref>, box: Ref, v: Ref)
    requires Exact(h, roots, multiset{}, []) && Exact(h', roots, multiset{}, []) && box < |h| && v < |h| && box != v
    requires h[v].rc == 1 && roots[v] > 0
    requires Frees(h[box := h[box].(payload := Scalar(0))], h', log)
    ensures v < |h'| && h'[v].rc == 1
  {
    hide AllRefs, AllBounds, Refs;
    var e := h[box := h[box].(payload := Scalar(0))];
    RefsUpdate(h, box, e[box]);
    LeafRefs(box);
    FreeingDropsRefs(e, h');
    assert h[v].rc == (AllRefs(h) + roots)[v];
    assert h'[v].rc == (AllRefs(h') + roots)[v];
  }

  /** Releasing the last reference to a leaf frees it and nothing else. */
  lemma JustThat(h: Store, h': Store, held: multiset<Ref>, table: multiset<Ref>, log: seq<Ref>, v: Ref)
    requires Exact(h, held + table, multiset{}, []) && held[v] > 0 && v < |h| && h[v].rc == 1 && h[v].payload == Scalar(0)
    requires Frees(h, h', log) && Exact(h', held - multiset{v} + table, multiset{}, [])
    ensures SamePayloads(h[v := h[v].(payload := Freed)], h')
  {
    hide AllRefs, AllBounds, Refs;
    LeafRefs(v);
    assert held - multiset{v} + table == held + table - multiset{v};
    OnlyItself(h, h', held + table, multiset{}, log, v);
    TheLast(h, h', held + table, multiset{}, log, v);
  }

  lemma InHand(cells: Cells, immortals: seq<Ref>, h: Store, held: multiset<Ref>, x: Ref)
    requires Sound(cells, immortals, h, held, []) && held[x] > 0
    ensures x < |h| == |cells| && h[x].rc > 0 && !h[x].payload.Freed? && cells[x].payload == h[x].payload
  {
    hide Exact;
    HeldExists(h, held, immortals, x);
  }

  lemma HeldThrough(cells: Cells, immortals: seq<Ref>, h: Store, h': Store, log: seq<Ref>, held: multiset<Ref>, x: Ref)
    requires Frees(h, h', log) && Sound(cells, immortals, h', held, []) && held[x] > 0
    ensures x < |h| == |h'| == |cells| && h'[x].payload == h[x].payload == cells[x].payload
  {
    hide Exact, Frees;
    HeldKept(h, h', log, immortals, held, [], x);
  }

  lemma FreesAlike(h: Store, h1: Store, h2: Store, log: seq<Ref>)
    requires SamePayloads(h, h1) && Frees(h1, h2, log)
    ensures Frees(h, h2, log)
  {
  }

  lemma MarkedAtLeast(was: Cells, now: Cells, x: Ref, level: Level, v: Ref)
    requires Closed(was) && Marked(was, now, x, level) && x < |was| && v < |was| && was[v].level >= level
    ensures now[x].level >= level && now[v] == was[v]
  {
    hide Reaches;
    ReachesItself(was, x);
  }

  lemma VecRefs(v: Ref, fields: seq<Option<Ref>>, at: int, x: Ref, push: bool)
    requires x != v && Some(v) !in fields && (push || 0 <= at < |fields|)
    ensures forall y: Ref ::
              Refs(v, Node(Vec, VecWith(fields, at, x, push)))[y] + HeldIn(if push then None else fields[at])[y]
              == Refs(v, Node(Vec, fields))[y] + multiset{x}[y]
  {
    OneIn(Some(x), v);
    if push {
      PresentConcat(fields, [Some(x)], Some(v));
    } else {
      PresentUpdate(fields, at, Some(x), Some(v));
      OneIn(fields[at], v);
    }
  }

  lemma NodeRefs(r: Ref, row: seq<Option<Ref>>)
    ensures Refs(r, Node(Vec, row)) == Present(row, Some(r))
  {
  }

  lemma RowCounted(cells: Cells, immortals: seq<Ref>, h: Store, held: multiset<Ref>, v: Ref, at: int, x: Ref, push: bool)
    requires Sound(cells, immortals, h, held, []) && multiset{v, x} <= held && v < |cells| && IsVec(cells[v].payload)
    ensures var row := VecWith(cells[v].payload.fields, at, x, push);
            && (forall j :: 0 <= j < |row| && row[j].Some? ==> row[j].value < |h| && h[row[j].value].rc > 0)
            && KidsAtLeast(cells, Node(Vec, row), LOCAL)
  {
    hide Exact;
    var fields := cells[v].payload.fields;
    var row := VecWith(fields, at, x, push);
    SamePayload(cells, immortals, h, held, v);
    InHand(cells, immortals, h, held, v);
    InHand(cells, immortals, h, held, x);
    KidsCounted(h, held + multiset(immortals), v);
    assert Children(h[v].payload) == fields;
    assert forall j :: 0 <= j < |row| && row[j].Some? ==> row[j] == Some(x) || (j < |fields| && row[j] == fields[j]);
  }

  lemma OneIn(x: Option<Ref>, v: Ref)
    requires x != Some(v)
    ensures Present([x], Some(v)) == HeldIn(x)
  {
    var one: seq<Option<Ref>> := [x];
    assert Present(one[1..], Some(v)) == multiset{};
  }

  lemma VecKids(cells: Cells, v: Ref, fields: seq<Option<Ref>>, at: int, x: Ref, push: bool)
    requires Closed(cells) && v < |cells| && cells[v].payload == Node(Vec, fields) && x < |cells|
    requires cells[v].level <= cells[x].level
    ensures KidsAtLeast(cells, Node(Vec, VecWith(fields, at, x, push)), cells[v].level)
  {
    forall c: Ref | IsChild(Node(Vec, VecWith(fields, at, x, push)), c)
      ensures c < |cells| && cells[v].level <= cells[c].level
    {
      if c != x {
        assert IsChild(cells[v].payload, c);
      }
    }
  }

  predicate IsVec(p: Payload) {
    p.Node? && p.shape.Vec?
  }

  /** The elements after a push, or after a set that is in range. */
  function VecWith(fields: seq<Option<Ref>>, at: int, x: Ref, push: bool): (r: seq<Option<Ref>>) {
    if push then fields + [Some(x)]
    else if 0 <= at < |fields| then fields[at := Some(x)]
    else fields
  }

  /** `x` is in its place, and every other element where it was. */
  predicate PutAt(was: seq<Option<Ref>>, row: seq<Option<Ref>>, place: int, x: Ref) {
    && 0 <= place < |row| && |was| <= |row| && row[place] == Some(x)
    && forall i :: 0 <= i < |was| && i != place ==> row[i] == was[i]
  }

  /** A push puts the element after the last; a set, at its index. */
  lemma VecWithAt(fields: seq<Option<Ref>>, at: int, x: Ref, push: bool)
    requires push || 0 <= at < |fields|
    ensures var row := VecWith(fields, at, x, push);
            |row| == (if push then |fields| + 1 else |fields|) && PutAt(fields, row, if push then |fields| else at, x)
  {
  }

  ghost predicate AllCounted(h: Store, xs: seq<Ref>) {
    forall x :: x in xs ==> x < |h| && h[x].rc > 0
  }

  lemma OneCounted(h: Store, xs: seq<Ref>, v: Ref)
    requires AllCounted(h, xs) && v in xs
    ensures v < |h| && h[v].rc > 0
  {
  }

  lemma JustOne(h: Store, v: Ref)
    requires v < |h| && h[v].rc > 0
    ensures AllCounted(h, [v])
  {
  }

  lemma StillCounted(h: Store, h': Store, work: seq<Ref>, v: Ref, more: seq<Ref>)
    requires AllCounted(h, work + [v]) && |h'| == |h| && forall i: Ref :: i < |h| ==> h'[i].rc >= h[i].rc
    requires AllCounted(h', more)
    ensures AllCounted(h', work + more)
  {
    forall x | x in work + more
      ensures x < |h'| && h'[x].rc > 0
    {
      assert x in work ==> x in work + [v];
    }
  }

  lemma SoundParts(cells: Cells, immortals: seq<Ref>, h: Store, held: multiset<Ref>, dead: seq<Ref>)
    requires Sound(cells, immortals, h, held, dead)
    ensures |cells| == |h| && Exact(h, held + multiset(immortals), multiset{}, dead)
  {
  }

  ghost predicate SamePayloads(h: Store, h': Store) {
    |h'| == |h| && forall i: Ref :: i < |h| ==> h'[i].payload == h[i].payload
  }

  function Children(p: Payload): (r: seq<Option<Ref>>)
    ensures forall c: Ref :: IsChild(p, c) <==> Some(c) in r
  {
    match p
    case Node(_, fields) => fields
    case Link(target) => [Some(target)]
    case _ => []
  }

  lemma KidsCounted(h: Store, roots: multiset<Ref>, v: Ref)
    requires Exact(h, roots, multiset{}, []) && v < |h| && h[v].rc > 0
    ensures var kids := Children(h[v].payload);
            forall j :: 0 <= j < |kids| && kids[j].Some? ==> kids[j].value < |h| && h[kids[j].value].rc > 0
  {
    hide Exact;
    var kids := Children(h[v].payload);
    forall j | 0 <= j < |kids| && kids[j].Some?
      ensures kids[j].value < |h| && h[kids[j].value].rc > 0
    {
      assert kids[j] in kids;
      NotFreed(h, roots, v);
      KidCounted(h, roots, v, kids[j].value);
    }
  }

  lemma NotFreed(h: Store, roots: multiset<Ref>, v: Ref)
    requires Exact(h, roots, multiset{}, []) && v < |h| && h[v].rc > 0
    ensures !h[v].payload.Freed?
  {
  }

  lemma HeldExists(h: Store, held: multiset<Ref>, immortals: seq<Ref>, x: Ref)
    requires Exact(h, held + multiset(immortals), multiset{}, []) && held[x] > 0
    ensures x < |h| && h[x].rc > 0 && !h[x].payload.Freed?
  {
    hide Exact;
    RootAlive(h, held + multiset(immortals), multiset{}, [], x);
  }

  lemma PopSound(cells: Cells, immortals: seq<Ref>, h: Store, held: multiset<Ref>, dead: seq<Ref>)
    requires Sound(cells, immortals, h, held, dead) && |dead| > 0
    ensures var n := |dead| - 1;
            dead[n] !in dead[..n] && Sound(cells, immortals, h, held, dead[..n] + [dead[n]])
  {
    hide Exact;
    PopDead(h, held + multiset(immortals), multiset{}, dead);
  }
}
