/** Writing the slots of an activation and the boxes of recursive lets. */
module Slots {
  import opened Common
  import opened Objects
  import opened Kinds
  import opened Runtime
  import opened Continuations

  function Held1(v: Option<Ref>): multiset<Ref> {
    if v.Some? then multiset{v.value} else multiset{}
  }

  lemma SlotRefs(f: Ref, clos: Option<Ref>, locals: seq<Option<Ref>>, tokens: seq<bool>, slot: nat, v: Option<Ref>)
    requires slot < |locals|
    ensures forall x: Ref ::
              Refs(f, Activation(clos, locals[slot := v], tokens))[x] + Held1(locals[slot])[x]
              == Refs(f, Activation(clos, locals, tokens))[x] + Held1(v)[x]
  {
    PresentUpdate(locals, slot, v, None);
    OneSlot(v);
    OneSlot(locals[slot]);
  }

  lemma OneSlot(v: Option<Ref>)
    ensures Present([v], None) == Held1(v)
  {
    var one: seq<Option<Ref>> := [v];
    assert Present(one[1..], None) == multiset{};
  }

  /** The slot may hold `v`: a value, or in a token slot a parked cell. */
  ghost predicate SlotFits(h: Store, f: Ref, slot: nat, v: Option<Ref>)
    requires f < |h| && h[f].payload.Activation?
  {
    slot < |h[f].payload.tokens| && SlotOk(h, v, h[f].payload.tokens[slot])
  }

  lemma SlotGood(h: Store, kont: seq<KFrame>, held: multiset<Ref>, f: Ref, slot: nat, v: Option<Ref>)
    requires Good(h, kont, held, None) && f < |h| && h[f].payload.Activation? && slot < |h[f].payload.locals|
    requires Held1(v) <= held && SlotFits(h, f, slot, v)
    ensures var p := h[f].payload;
            Good(h[f := h[f].(payload := p.(locals := p.locals[slot := v]))], kont, held - Held1(v) + Held1(p.locals[slot]), None)
  {
    hide Exact, Kinded, SegOk, Intact, SegRefs, SegBounds, Refs, PayloadOk, Held1;
    var p := h[f].payload;
    var q := p.(locals := p.locals[slot := v]);
    var held' := held - Held1(v) + Held1(p.locals[slot]);
    SlotRefs(f, p.clos, p.locals, p.tokens, slot, v);
    NoBounds(p, q);
    ChangeObject(h, SegRefs(kont) + held, SegBounds(kont) + multiset{}, [], f, q,
                 SegRefs(kont) + held', SegBounds(kont) + multiset{});
    SlotKinds(h, f, slot, v);
  }

  lemma NoBounds(p: Payload, q: Payload)
    requires !p.Slice? && !q.Slice?
    ensures Bounds(p) == multiset{} && Bounds(q) == multiset{}
  {
  }

  lemma SlotKinds(h: Store, f: Ref, slot: nat, v: Option<Ref>)
    requires Kinded(h) && f < |h| && h[f].payload.Activation? && slot < |h[f].payload.locals| && SlotFits(h, f, slot, v)
    ensures var p := h[f].payload; var h' := h[f := h[f].(payload := p.(locals := p.locals[slot := v]))];
            && Kinded(h')
            && (forall kont :: SegOk(h, kont) ==> SegOk(h', kont))
            && (Intact(h, None) ==> Intact(h', None))
  {
    hide SegOk;
    var p := h[f].payload;
    var h' := h[f := h[f].(payload := p.(locals := p.locals[slot := v]))];
    assert PayloadOk(h, p);
    assert PayloadOk(h', h'[f].payload) by {
      forall j | 0 <= j < |p.locals|
        ensures SlotOk(h', h'[f].payload.locals[j], p.tokens[j])
      {
        assert j != slot ==> SlotOk(h, p.locals[j], p.tokens[j]);
      }
      assert p.clos.Some? ==> ValueAt(h, [p.clos][0].value);
    }
    ChangeKinded(h, f, h'[f]);
  }

  /** Put a held reference (or nothing) in a slot, taking out what was there. */
  method PutSlot(m: Machine, f: Ref, slot: nat, v: Option<Ref>) returns (was: Option<Ref>)
    requires Inv(m, None) && f < |m.heap| && m.heap[f].payload.Activation? && slot < |m.heap[f].payload.locals|
    requires Held1(v) <= m.held && SlotFits(m.heap, f, slot, v)
    modifies m
    ensures Inv(m, None)
    ensures was == old(m.heap)[f].payload.locals[slot] && m.kont == old(m.kont)
    ensures var p := old(m.heap)[f].payload;
            m.heap == old(m.heap)[f := old(m.heap)[f].(payload := p.(locals := p.locals[slot := v]))]
    ensures m.held == old(m.held) - Held1(v) + Held1(was)
  {
    hide Good, Held1;
    SlotGood(m.heap, m.kont, m.held, f, slot, v);
    var p := m.heap[f].payload;
    was := p.locals[slot];
    m.heap := m.heap[f := m.heap[f].(payload := p.(locals := p.locals[slot := v]))];
    m.held := m.held - Held1(v) + Held1(was);
  }

  // ---- emptying and filling a box -----------------------------------------

  lemma EmptyGood(h: Store, kont: seq<KFrame>, held: multiset<Ref>, x: Ref)
    requires Good(h, kont, held, None) && ValueAt(h, x)
    ensures Good(h[x := h[x].(payload := Scalar(0))], kont, held + Refs(x, h[x].payload), None)
  {
    hide Exact, Kinded, SegOk, SegRefs, SegBounds, Refs, PayloadOk;
    var h' := h[x := h[x].(payload := Scalar(0))];
    ScalarOwnsNothing(h, h', x);
    NoBounds(h[x].payload, Scalar(0));
    ChangeObject(h, SegRefs(kont) + held, SegBounds(kont) + multiset{}, [], x, Scalar(0),
                 SegRefs(kont) + (held + Refs(x, h[x].payload)), SegBounds(kont) + multiset{});
    ChangeKinded(h, x, h'[x]);
  }

  lemma ScalarOwnsNothing(h: Store, h': Store, x: Ref)
    ensures Refs(x, Scalar(0)) == multiset{} && PayloadOk(h', Scalar(0))
  {
  }

  lemma FillGood(h: Store, kont: seq<KFrame>, held: multiset<Ref>, x: Ref, p: Payload)
    requires Good(h, kont, held, None) && x < |h| && h[x].payload == Scalar(0)
    requires IsValue(p) && PayloadOk(h, p) && Refs(x, p) <= held
    requires p.Resumption? ==> p.slice < |h| && h[p.slice].payload.Slice? && h[p.slice].payload.seg.Some?
    ensures Good(h[x := h[x].(payload := p)], kont, held - Refs(x, p), None)
  {
    hide Exact, Kinded, SegOk, SegRefs, SegBounds, Refs, PayloadOk;
    var h' := h[x := h[x].(payload := p)];
    ScalarOwnsNothing(h, h', x);
    NoBounds(h[x].payload, p);
    ChangeObject(h, SegRefs(kont) + held, SegBounds(kont) + multiset{}, [], x, p,
                 SegRefs(kont) + (held - Refs(x, p)), SegBounds(kont) + multiset{});
    FilledKind(h, h', x, p);
    ChangeKinded(h, x, h'[x]);
  }

  lemma FilledKind(h: Store, h': Store, x: Ref, p: Payload)
    requires x < |h| && h[x].payload == Scalar(0) && h' == h[x := h[x].(payload := p)]
    requires IsValue(p) && PayloadOk(h, p)
    ensures PayloadOk(h', p)
  {
    SameObjectsPayload(h, h', p);
  }

  /** Retain every reference the payload `p` would own in object `self`. */
  method RetainPayload(m: Machine, self: Ref, p: Payload)
    requires Inv(m, None) && IsValue(p) && Counted(m.heap, Refs(self, p))
    modifies m
    ensures Inv(m, None)
    ensures m.held == old(m.held) + Refs(self, p) && m.kont == old(m.kont)
    ensures SameButCounts(old(m.heap), m.heap)
  {
    hide Good;
    match p {
      case Node(_, fields) => RetainRow(m, fields, Some(self));
      case Link(target) => assert target in Refs(self, p); Retain(m, target, None);
      case Resumption(slice) => assert slice in Refs(self, p); Retain(m, slice, None);
      case _ =>
    }
  }

  /** Retain the references in a row, but not the weak edge `skip`. */
  method RetainRow(m: Machine, row: seq<Option<Ref>>, skip: Option<Ref>)
    requires Inv(m, None) && Counted(m.heap, Present(row, skip))
    modifies m
    ensures Inv(m, None)
    ensures m.held == old(m.held) + Present(row, skip) && m.kont == old(m.kont)
    ensures SameButCounts(old(m.heap), m.heap) && |m.heap| == |old(m.heap)|
  {
    hide Good, Present, Inv;
    assert row[0..] == row;
    for i := 0 to |row|
      invariant Inv(m, None) && m.kont == old(m.kont)
      invariant m.held + Present(row[i..], skip) == old(m.held) + Present(row, skip)
      invariant SameButCounts(old(m.heap), m.heap) && Counted(m.heap, Present(row, skip))
    {
      PresentStep(row, i, skip);
      if row[i].Some? && row[i] != skip {
        PresentHas(row, skip, i);
        Retain(m, row[i].value, None);
      }
    }
    assert row[|row|..] == [];
    PresentNone(skip);
  }

  lemma PresentStep(row: seq<Option<Ref>>, i: nat, skip: Option<Ref>)
    requires i < |row|
    ensures Present(row[i..], skip) ==
            if row[i].Some? && row[i] != skip then multiset{row[i].value} + Present(row[i + 1..], skip) else Present(row[i + 1..], skip)
  {
    assert row[i..][1..] == row[i + 1..];
  }

  lemma PresentNone(skip: Option<Ref>)
    ensures Present([], skip) == multiset{}
  {
  }

  /** A value slot of `f` holds `box`. */
  ghost predicate InSlot(h: Store, f: Ref, slot: nat, box: Ref) {
    && f < |h| && h[f].payload.Activation? && ValueSlot(h[f].payload, slot)
    && h[f].payload.locals[slot] == Some(box)
  }

  function Emptied(h: Store, box: Ref): Store {
    if box < |h| then h[box := h[box].(payload := Scalar(0))] else h
  }

  /** Release what the box in a slot of the held activation `f` contains. */
  method EmptyBox(m: Machine, f: Ref, slot: nat, box: Ref) returns (ghost log: seq<Ref>)
    requires Inv(m, None) && m.held[f] > 0 && InSlot(m.heap, f, slot, box)
    modifies m
    ensures Inv(m, None)
    ensures m.held == old(m.held) && m.kont == old(m.kont)
    ensures box < |m.heap| && m.heap[box].payload == Scalar(0)
    ensures Frees(Emptied(old(m.heap), box), m.heap, log)
    ensures f < |m.heap| && m.heap[f].payload == old(m.heap)[f].payload
  {
    hide Exact, Frees, Kinded, SegOk, Intact, SegRefs, SegBounds, Refs, Present;
    BoxInSlot(m.heap, m.kont, m.held, f, slot);
    var p := m.heap[box].payload;
    EmptyGood(m.heap, m.kont, m.held, box);
    m.heap := m.heap[box := m.heap[box].(payload := Scalar(0))];
    m.held := m.held + Refs(box, p);
    NoBounds(p, p);
    ghost var h1 := m.heap;
    log := m.ReleasePayload(box, p);
    assert m.held == old(m.held);
    assert m.heldBounds == multiset{};
    FreesGood(h1, m.heap, log, m.kont, m.held, None);
    assert (SegRefs(m.kont) + m.held)[f] > 0;
    StillThere(h1, m.heap, log, SegRefs(m.kont) + m.held, SegBounds(m.kont) + multiset{}, [], f);
    BoxInSlot(m.heap, m.kont, m.held, f, slot);
    NotFreedSame(h1, m.heap, log, box);
  }

  lemma NotFreedSame(h: Store, h': Store, log: seq<Ref>, x: Ref)
    requires Frees(h, h', log) && x < |h'| && !h'[x].payload.Freed?
    ensures x < |h| && h'[x].payload == h[x].payload
  {
  }

  /** A slot of a held activation names a counted value. */
  lemma BoxInSlot(h: Store, kont: seq<KFrame>, held: multiset<Ref>, f: Ref, slot: nat)
    requires Good(h, kont, held, None) && f < |h| && h[f].payload.Activation?
    requires slot < |h[f].payload.locals| && h[f].payload.locals[slot].Some?
    ensures var box := h[f].payload.locals[slot].value;
            && box != f && box < |h| && IsCell(h[box].payload) && h[box].rc > 0
            && slot < |h[f].payload.tokens| && (if h[f].payload.tokens[slot] then ParkedAt(h, box) else ValueAt(h, box))
  {
    hide Exact, SegOk, Intact, SegRefs, SegBounds;
    var p := h[f].payload;
    var box := p.locals[slot].value;
    assert PayloadOk(h, p);
    assert SlotOk(h, p.locals[slot], p.tokens[slot]);
    PayloadCounted(h, kont, held, None, f);
    PresentHas(h[f].payload.locals, None, slot);
    assert box in Refs(f, h[f].payload);
  }

  /** Patch the box in a slot with a copy of `v`'s payload.  A child of `v` equal to
      the box becomes the weak self edge of a recursive binding.  (A thunk over the
      very box it is stored in, which no program builds, is excluded: the code
      would not count that edge when copying but would release it.) */
  method BackPatch(m: Machine, f: Ref, slot: nat, box: Ref, v: Ref) returns (ghost log: seq<Ref>, ghost mid: Store)
    requires Inv(m, None) && multiset{f, v} <= m.held && InSlot(m.heap, f, slot, box)
    requires ValueAt(m.heap, v) && m.heap[v].payload != Link(box)
    modifies m
    ensures Inv(m, None)
    ensures m.held == old(m.held) && m.kont == old(m.kont)
    ensures box < |m.heap| == |mid| && m.heap[box].payload == old(m.heap)[v].payload
    ensures if box == v then mid == m.heap == old(m.heap) && log == []
            else Frees(Emptied(old(m.heap), box), mid, log) && SameButCounts(mid[box := m.heap[box]], m.heap)
    ensures f < |m.heap| && m.heap[f].payload == old(m.heap)[f].payload
  {
    hide Exact, Frees, Kinded, SegOk, Intact, SegRefs, SegBounds, Refs, Present;
    BoxInSlot(m.heap, m.kont, m.held, f, slot);
    log, mid := [], m.heap;
    if box != v {
      log := EmptyBox(m, f, slot, box);
      mid := m.heap;
      assert (SegRefs(m.kont) + m.held)[v] > 0;
      StillThere(Emptied(old(m.heap), box), mid, log, SegRefs(m.kont) + m.held, SegBounds(m.kont) + multiset{}, [], v);
      FillBox(m, box, v);
    }
  }

  /** What the code retains as it copies the payload `p` into `box`: a child that is the
      box itself it takes for a weak edge, even a thunk's, which it will release. */
  function Retained(box: Ref, p: Payload): multiset<Ref> {
    match p
    case Link(target) => if target == box then multiset{} else multiset{target}
    case _ => Refs(box, p)
  }

  function Raised(h: Store, more: multiset<Ref>): (r: Store)
    ensures |r| == |h|
  {
    seq(|h|, i requires 0 <= i < |h| => h[i].(rc := h[i].rc + more[i]))
  }

  /** So patching a box keeps the counts exact if and only if the value is not a thunk
      over that very box. */
  lemma PatchCounts(h: Store, kont: seq<KFrame>, held: multiset<Ref>, box: Ref, v: Ref)
    requires Good(h, kont, held, None) && box < |h| && h[box].payload == Scalar(0) && h[box].rc > 0
    requires ValueAt(h, v) && v in held && v != box
    ensures var p, h1 := h[v].payload, Raised(h, Retained(box, h[v].payload));
            Exact(h1[box := h1[box].(payload := p)], SegRefs(kont) + held, SegBounds(kont) + multiset{}, []) <==> p != Link(box)
  {
    hide Kinded, SegOk, Intact, SegRefs, SegBounds, AllRefs, AllBounds, Refs, Bounds, Tallied, Retained;
    var p, taken := h[v].payload, Retained(box, h[v].payload);
    var h1 := Raised(h, taken);
    var h2 := h1[box := h1[box].(payload := p)];
    var roots, bounds := SegRefs(kont) + held, SegBounds(kont) + multiset{};
    SamePayloadRefs(h, h1);
    RefsUpdate(h1, box, h2[box]);
    ScalarOwnsNothing(h, h, box);
    NoBounds(Scalar(0), p);
    SelfEdge(box, p);
    if p != Link(box) {
      CopyCounted(h, kont, held, v, box);
      RaisedTally(h, h2, AllRefs(h) + roots, AllBounds(h) + bounds, AllRefs(h2) + roots, AllBounds(h2) + bounds, taken);
    } else {
      TalliedAt(h, AllRefs(h) + roots, AllBounds(h) + bounds, box);
      assert (AllRefs(h2) + roots)[box] == (AllRefs(h) + roots)[box] + 1;
      if Exact(h2, roots, bounds, []) {
        TalliedAt(h2, AllRefs(h2) + roots, AllBounds(h2) + bounds, box);
        assert false;
      }
    }
  }

  lemma TalliedAt(h: Store, total: multiset<Ref>, btotal: multiset<Ref>, i: Ref)
    requires Tallied(h, total, btotal, []) && i < |h|
    ensures h[i].rc == total[i]
  {
  }

  lemma RaisedTally(h: Store, h': Store, total: multiset<Ref>, btotal: multiset<Ref>, total': multiset<Ref>, btotal': multiset<Ref>, more: multiset<Ref>)
    requires Tallied(h, total, btotal, []) && |h'| == |h| && Counted(h, more)
    requires forall i :: 0 <= i < |h| ==>
               h'[i].rc == h[i].rc + more[i] && h'[i].nbound == h[i].nbound && h'[i].payload.Freed? == h[i].payload.Freed?
    requires forall x: Ref :: total'[x] == total[x] + more[x] && btotal'[x] == btotal[x]
    ensures Tallied(h', total', btotal', [])
  {
    assert forall x :: x in more ==> total[x] > 0;
  }

  lemma SelfEdge(box: Ref, p: Payload)
    ensures p != Link(box) ==> Retained(box, p) == Refs(box, p)
    ensures p == Link(box) ==> Retained(box, p) == multiset{} && Refs(box, p) == multiset{box}
  {
  }

  /** Fill an emptied box with a copy of `v`'s payload. */
  method FillBox(m: Machine, box: Ref, v: Ref)
    requires Inv(m, None) && v in m.held && ValueAt(m.heap, v) && box != v
    requires box < |m.heap| && m.heap[box].payload == Scalar(0) && m.heap[v].payload != Link(box)
    modifies m
    ensures Inv(m, None) && m.held == old(m.held) && m.kont == old(m.kont)
    ensures box < |m.heap| == |old(m.heap)| && m.heap[box].payload == old(m.heap)[v].payload
    ensures SameButCounts(old(m.heap)[box := m.heap[box]], m.heap)
  {
    hide Exact, Frees, Kinded, SegOk, Intact, SegRefs, SegBounds, Refs, Present;
    var p := m.heap[v].payload;
    CopyCounted(m.heap, m.kont, m.held, v, box);
    RetainPayload(m, box, p);
    CopyOk(m.heap, m.kont, m.held, v);
    FillGood(m.heap, m.kont, m.held, box, p);
    m.heap := m.heap[box := m.heap[box].(payload := p)];
    m.held := m.held - Refs(box, p);
    assert m.held == old(m.held);
  }

  lemma CopyOk(h: Store, kont: seq<KFrame>, held: multiset<Ref>, v: Ref)
    requires Good(h, kont, held, None) && v < |h|
    ensures var p := h[v].payload;
            && PayloadOk(h, p)
            && (p.Resumption? ==> p.slice < |h| && h[p.slice].payload.Slice? && h[p.slice].payload.seg.Some?)
  {
    hide Exact, SegOk, SegRefs, SegBounds, PayloadOk;
  }

  /** What a copy of `v`'s payload in `box` owns is counted already. */
  lemma CopyCounted(h: Store, kont: seq<KFrame>, held: multiset<Ref>, v: Ref, box: Ref)
    requires Good(h, kont, held, None) && ValueAt(h, v) && v in held
    ensures Counted(h, Refs(box, h[v].payload))
  {
    hide Exact, Kinded, SegOk, Intact, SegRefs, SegBounds;
    PayloadCounted(h, kont, held, None, v);
    assert (SegRefs(kont) + held)[v] > 0;
    RootAlive(h, SegRefs(kont) + held, SegBounds(kont) + multiset{}, [], v);
    match h[v].payload
    case Node(_, fields) => SkipCounted(h, fields, v, box);
    case _ =>
  }

  lemma {:induction false} SkipCounted(h: Store, row: seq<Option<Ref>>, v: Ref, box: Ref)
    requires Counted(h, Present(row, Some(v))) && v < |h| && h[v].rc > 0
    ensures Counted(h, Present(row, Some(box)))
  {
    if |row| > 0 {
      assert Counted(h, Present(row[1..], Some(v))) by {
        forall x | x in Present(row[1..], Some(v))
          ensures x in Present(row, Some(v))
        {
        }
      }
      SkipCounted(h, row[1..], v, box);
      if row[0].Some? && row[0].value != v {
        assert row[0].value in Present(row, Some(v));
      }
    }
  }
}
