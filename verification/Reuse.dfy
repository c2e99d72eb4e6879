/** Constructor reuse: moving the fields out of a dying variant and building the
    next one into its cell.  In place or not, the program sees the same trees. */
module Reuse {
  import opened Common
  import opened Objects
  import opened Kinds
  import opened Runtime
  import opened Continuations
  import opened Slots
  import opened Delivery
  import opened Copying
  import opened Applying

  // ---- what a value denotes -----------------------------------------------

  /** A value as the program sees it, unfolded to some depth. */
  datatype Tree =
    | Cut
    | Nothing
    | Atom(value: int)
    | Branch(shape: Shape, kids: seq<Tree>)
    | Through(inner: Tree)
    | Continuation(slice: Ref)
    | Operation(effect: Option<nat>, op: nat)

  /** The tree of a value, `n` levels deep; two values are the same to a program
      when their trees agree at every depth. */
  function Den(h: Store, x: Option<Ref>, n: nat): Tree
    decreases n
  {
    if n == 0 then Cut
    else if x.None? || x.value >= |h| then Nothing
    else
      match h[x.value].payload
      case Scalar(v) => Atom(v)
      case Node(shape, fields) => Branch(shape, seq(|fields|, i requires 0 <= i < |fields| => Den(h, fields[i], n - 1)))
      case Link(target) => Through(Den(h, Some(target), n - 1))
      case Resumption(slice) => Continuation(slice)
      case Op(effect, op) => Operation(effect, op)
      case _ => Nothing
  }

  /** The value `y` reads in `h'` as it did in `h`. */
  ghost predicate SameTree(h: Store, h': Store, y: Ref) {
    y < |h| && IsValue(h[y].payload) && forall n: nat :: Den(h', Some(y), n) == Den(h, Some(y), n)
  }

  /** Every value of `h'` outside `but` reads as it did in `h`. */
  ghost predicate SameTrees(h: Store, h': Store, but: Option<Ref>) {
    forall y: Ref :: y < |h'| && IsValue(h'[y].payload) && Some(y) != but ==> SameTree(h, h', y)
  }

  /** The values outside `but` are unchanged objects, closed under children. */
  ghost predicate Closed(h: Store, h': Store, but: Option<Ref>) {
    forall y: Ref :: y < |h'| && IsValue(h'[y].payload) && Some(y) != but ==>
      && y < |h| && h'[y].payload == h[y].payload
      && forall c: Ref :: IsChild(h'[y].payload, c) ==> c < |h'| && IsValue(h'[c].payload) && Some(c) != but
  }

  lemma {:induction false} ClosedDen(h: Store, h': Store, but: Option<Ref>, y: Ref, n: nat)
    requires Closed(h, h', but) && y < |h'| && IsValue(h'[y].payload) && Some(y) != but
    ensures y < |h| && Den(h', Some(y), n) == Den(h, Some(y), n)
    decreases n
  {
    if n > 0 {
      var p := h'[y].payload;
      match p
      case Node(shape, fields) =>
        forall i | 0 <= i < |fields|
          ensures Den(h', fields[i], n - 1) == Den(h, fields[i], n - 1)
        {
          if fields[i].Some? {
            assert fields[i] in fields;
            assert IsChild(p, fields[i].value);
            ClosedDen(h, h', but, fields[i].value, n - 1);
          }
        }
      case Link(target) =>
        assert IsChild(p, target);
        ClosedDen(h, h', but, target, n - 1);
      case _ =>
    }
  }

  lemma ClosedSame(h: Store, h': Store, but: Option<Ref>)
    requires Closed(h, h', but)
    ensures SameTrees(h, h', but)
  {
    forall y: Ref | y < |h'| && IsValue(h'[y].payload) && Some(y) != but
      ensures SameTree(h, h', y)
    {
      assert h'[y].payload == h[y].payload;
      forall n: nat
        ensures Den(h', Some(y), n) == Den(h, Some(y), n)
      {
        ClosedDen(h, h', but, y, n);
      }
    }
  }

  lemma SameTreesCompose(h: Store, h1: Store, h2: Store, but: Option<Ref>)
    requires SameTrees(h, h1, but) && SameTrees(h1, h2, but)
    ensures SameTrees(h, h2, but)
  {
    forall y: Ref | y < |h2| && IsValue(h2[y].payload) && Some(y) != but
      ensures SameTree(h, h2, y)
    {
      assert SameTree(h1, h2, y) && SameTree(h, h1, y);
      assert forall n: nat :: Den(h2, Some(y), n) == Den(h1, Some(y), n);
    }
  }

  /** The children of a live value are live values. */
  lemma ChildAlive(h: Store, kont: seq<KFrame>, held: multiset<Ref>, y: Ref, c: Ref)
    requires Good(h, kont, held, None) && y < |h| && IsValue(h[y].payload) && IsChild(h[y].payload, c)
    ensures ValueAt(h, c)
    ensures c != y || h[y].payload.Link? ==> c in Refs(y, h[y].payload)
  {
    hide Exact, SegOk, Intact, SegRefs, SegBounds;
    assert PayloadOk(h, h[y].payload);
    match h[y].payload
    case Node(_, fields) =>
      var j :| 0 <= j < |fields| && fields[j] == Some(c);
      assert ValueAt(h, fields[j].value);
      if c != y {
        PresentHas(fields, Some(y), j);
      }
    case Link(target) =>
  }

  /** Releasing changes no surviving value. */
  lemma FreesSameTrees(h: Store, h': Store, log: seq<Ref>, kont: seq<KFrame>, held: multiset<Ref>, but: Option<Ref>)
    requires Frees(h, h', log) && Good(h', kont, held, None)
    requires but.Some? ==> Unreferenced(h', but.value)
    ensures SameTrees(h, h', but)
  {
    hide Exact, Kinded, SegOk, Intact, SegRefs, SegBounds, Refs;
    forall y: Ref | y < |h'| && IsValue(h'[y].payload) && Some(y) != but
      ensures y < |h| && h'[y].payload == h[y].payload
      ensures forall c: Ref :: IsChild(h'[y].payload, c) ==> c < |h'| && IsValue(h'[c].payload) && Some(c) != but
    {
      forall c: Ref | IsChild(h'[y].payload, c)
        ensures ValueAt(h', c) && Some(c) != but
      {
        ChildAlive(h', kont, held, y, c);
      }
    }
    assert Closed(h, h', but);
    ClosedSame(h, h', but);
  }

  /** No value has `x` for a child. */
  ghost predicate Unreferenced(h: Store, x: Ref) {
    forall y: Ref :: y < |h| && y != x ==> !IsChild(h[y].payload, x)
  }

  /** Changing an object that no other value has for a child changes no other tree. */
  lemma ChangeSameTrees(h: Store, x: Ref, o: Obj, kont: seq<KFrame>, held: multiset<Ref>)
    requires Good(h, kont, held, None) && x < |h|
    requires !IsValue(h[x].payload) || Unreferenced(h, x)
    requires IsValue(h[x].payload) <==> IsValue(o.payload)
    ensures SameTrees(h, h[x := o], Some(x))
  {
    hide Exact, Kinded, SegOk, Intact, SegRefs, SegBounds, Refs;
    var h' := h[x := o];
    forall y: Ref | y < |h'| && IsValue(h'[y].payload) && Some(y) != Some(x)
      ensures h'[y].payload == h[y].payload
      ensures forall c: Ref :: IsChild(h'[y].payload, c) ==> c < |h'| && IsValue(h'[c].payload) && Some(c) != Some(x)
    {
      forall c: Ref | IsChild(h'[y].payload, c)
        ensures ValueAt(h', c) && c != x
      {
        ChildAlive(h, kont, held, y, c);
      }
    }
    assert Closed(h, h', Some(x));
    ClosedSame(h, h', Some(x));
  }

  // ---- unpacking ----------------------------------------------------------

  predicate IsVariant(p: Payload) {
    p.Node? && p.shape.Variant?
  }

  /** A cell whose fields have all been moved out. */
  predicate Hollow(p: Payload) {
    IsVariant(p) && forall i :: 0 <= i < |p.fields| ==> p.fields[i].None?
  }

  /** Where `v` is held once, by this slot, and is no child of itself. */
  predicate Dying(h: Store, f: Ref, slot: nat, v: Ref)
    requires f < |h| && h[f].payload.Activation? && slot < |h[f].payload.locals| && v < |h| && IsVariant(h[v].payload)
  {
    h[f].payload.locals[slot] == Some(v) && h[v].rc == 1 && Some(v) !in h[v].payload.fields
  }

  lemma TakeFieldRefs(v: Ref, shape: Shape, fields: seq<Option<Ref>>, i: nat)
    requires i < |fields| && fields[i] != Some(v)
    ensures forall x: Ref ::
              Refs(v, Node(shape, fields[i := None]))[x] + Held1(fields[i])[x] == Refs(v, Node(shape, fields))[x]
  {
    PresentUpdate(fields, i, None, Some(v));
    OneField(fields[i], v);
    OneField(None, v);
  }

  lemma OneField(x: Option<Ref>, v: Ref)
    requires x != Some(v)
    ensures Present([x], Some(v)) == Held1(x)
  {
    var one: seq<Option<Ref>> := [x];
    assert Present(one[1..], Some(v)) == multiset{};
  }

  lemma TakeFieldGood(h: Store, kont: seq<KFrame>, held: multiset<Ref>, v: Ref, i: nat)
    requires Good(h, kont, held, None) && v < |h| && IsVariant(h[v].payload)
    requires i < |h[v].payload.fields| && h[v].payload.fields[i] != Some(v)
    ensures var p := h[v].payload;
            Good(h[v := h[v].(payload := p.(fields := p.fields[i := None]))], kont, held + Held1(p.fields[i]), None)
  {
    hide Exact, Kinded, SegOk, Intact, SegRefs, SegBounds, Refs, PayloadOk, Held1;
    var p := h[v].payload;
    var q := p.(fields := p.fields[i := None]);
    var h' := h[v := h[v].(payload := q)];
    TakeFieldRefs(v, p.shape, p.fields, i);
    NoBounds(p, q);
    ChangeObject(h, SegRefs(kont) + held, SegBounds(kont) + multiset{}, [], v, q,
                 SegRefs(kont) + (held + Held1(p.fields[i])), SegBounds(kont) + multiset{});
    TakeFieldKinds(h, v, i);
  }

  lemma TakeFieldKinds(h: Store, v: Ref, i: nat)
    requires Kinded(h) && v < |h| && IsVariant(h[v].payload) && i < |h[v].payload.fields|
    ensures var p := h[v].payload; var h' := h[v := h[v].(payload := p.(fields := p.fields[i := None]))];
            && Kinded(h')
            && (forall kont :: SegOk(h, kont) ==> SegOk(h', kont))
            && (Intact(h, None) ==> Intact(h', None))
  {
    hide SegOk;
    var p := h[v].payload;
    var h' := h[v := h[v].(payload := p.(fields := p.fields[i := None]))];
    assert PayloadOk(h, p);
    assert PayloadOk(h', h'[v].payload) by {
      forall j | 0 <= j < |h'[v].payload.fields| && h'[v].payload.fields[j].Some?
        ensures ValueAt(h', h'[v].payload.fields[j].value)
      {
        assert ValueAt(h, p.fields[j].value);
      }
    }
    ChangeKinded(h, v, h'[v]);
  }

  /** With one reference, in hand, no value has it for a child. */
  lemma InHandAlone(h: Store, kont: seq<KFrame>, held: multiset<Ref>, v: Ref)
    requires Good(h, kont, held, None) && held[v] > 0 && v < |h| && h[v].rc == 1
    ensures Unreferenced(h, v)
  {
    hide AllRefs, AllBounds, Kinded, SegOk, Intact, SegRefs, SegBounds, Refs;
    assert h[v].rc == (AllRefs(h) + (SegRefs(kont) + held))[v];
    assert AllRefs(h)[v] == 0;
    forall y: Ref | y < |h| && y != v
      ensures !IsChild(h[y].payload, v)
    {
      NotAChild(h, kont, held, y, v);
    }
  }

  lemma NotAChild(h: Store, kont: seq<KFrame>, held: multiset<Ref>, y: Ref, v: Ref)
    requires Good(h, kont, held, None) && y < |h| && y != v && AllRefs(h)[v] == 0
    ensures !IsChild(h[y].payload, v)
  {
    hide Exact, AllRefs, Kinded, SegOk, Intact, SegRefs, SegBounds;
    RefsBelow(h, y);
    assert Refs(y, h[y].payload)[v] <= AllRefs(h)[v];
    match h[y].payload
    case Node(_, fields) =>
      if j :| 0 <= j < |fields| && fields[j] == Some(v) {
        PresentHas(fields, Some(y), j);
      }
    case _ =>
  }

  /** An object held once, in hand, stays so when something else is released. */
  lemma StaysAlone(h: Store, h': Store, log: seq<Ref>, kont: seq<KFrame>, held: multiset<Ref>, x: Ref, v: Ref)
    requires Good(h, kont, held, None) && held[v] > 0 && v < |h| && h[v].rc == 1 && x != v
    requires Frees(h, h', log) && Good(h', kont, held - multiset{x}, None)
    ensures v < |h'| && h'[v].rc == 1 && h'[v].payload == h[v].payload
  {
    hide AllRefs, AllBounds, Kinded, SegOk, Intact, SegRefs, SegBounds, Refs;
    FreeingDropsRefs(h, h');
    assert h[v].rc == (AllRefs(h) + (SegRefs(kont) + held))[v];
    assert (held - multiset{x})[v] > 0;
    HeldStays(h, h', log, kont, held - multiset{x}, v);
    assert h'[v].rc == (AllRefs(h') + (SegRefs(kont) + (held - multiset{x})))[v];
  }

  /** The dying cell: held once, in hand, a variant that is no child of itself. */
  ghost predicate InOurHands(m: Machine, v: Ref)
    reads m
  {
    m.held[v] > 0 && v < |m.heap| && m.heap[v].rc == 1 && IsVariant(m.heap[v].payload) && Some(v) !in m.heap[v].payload.fields
  }

  /** `f` is the activation `p`, but for its slots, which are `locals`. */
  ghost predicate SlotsAre(h: Store, f: Ref, p: Payload, locals: seq<Option<Ref>>)
    requires p.Activation?
  {
    f < |h| && h[f].payload == p.(locals := locals)
  }

  /** Release a value while a dying cell is in our hands and `f` is held. */
  method DropBeside(m: Machine, x: Ref, v: Ref, f: Ref)
    requires Inv(m, None) && InOurHands(m, v) && x != v && x != f && m.held[x] > 0 && m.held[f] > 0 && f < |m.heap|
    modifies m
    ensures Inv(m, None) && InOurHands(m, v) && m.kont == old(m.kont) && m.held == old(m.held) - multiset{x}
    ensures v < |m.heap| && m.heap[v].payload == old(m.heap)[v].payload
    ensures f < |m.heap| && m.heap[f].payload == old(m.heap)[f].payload
    ensures SameTrees(old(m.heap), m.heap, Some(v))
  {
    hide Good, Inv, Frees, Den, SameTree;
    ghost var h, held := m.heap, m.held;
    GoodOf(m);
    ghost var log := Drop(m, x, None);
    GoodOf(m);
    StaysAlone(h, m.heap, log, m.kont, held, x, v);
    assert f in m.held;
    HeldStays(h, m.heap, log, m.kont, m.held, f);
    InHandAlone(m.heap, m.kont, m.held, v);
    FreesSameTrees(h, m.heap, log, m.kont, m.held, Some(v));
  }

  lemma FieldIsValue(h: Store, kont: seq<KFrame>, held: multiset<Ref>, v: Ref, x: Ref)
    requires Good(h, kont, held, None) && v < |h| && IsVariant(h[v].payload) && Some(x) in h[v].payload.fields
    ensures ValueAt(h, x)
  {
    hide Good;
    ChildAlive(h, kont, held, v, x);
  }

  /** Take field `i` out of the dying cell. */
  method TakeField(m: Machine, v: Ref, i: nat) returns (x: Option<Ref>)
    requires Inv(m, None) && InOurHands(m, v) && i < |m.heap[v].payload.fields|
    modifies m
    ensures Inv(m, None) && InOurHands(m, v) && m.kont == old(m.kont)
    ensures x == old(m.heap)[v].payload.fields[i] && m.held == old(m.held) + Held1(x)
    ensures |m.heap| == |old(m.heap)| && forall y :: 0 <= y < |m.heap| && y != v ==> m.heap[y] == old(m.heap)[y]
    ensures m.heap[v].payload == old(m.heap)[v].payload.(fields := old(m.heap)[v].payload.fields[i := None])
    ensures x != Some(v) && (x.Some? ==> ValueAt(m.heap, x.value))
    ensures SameTrees(old(m.heap), m.heap, Some(v))
  {
    hide Good, Den, SameTree;
    ghost var h := m.heap;
    var p := m.heap[v].payload;
    x := p.fields[i];
    assert x in p.fields;
    TakeFieldGood(m.heap, m.kont, m.held, v, i);
    InHandAlone(h, m.kont, m.held, v);
    m.heap := m.heap[v := m.heap[v].(payload := p.(fields := p.fields[i := None]))];
    ChangeSameTrees(h, v, m.heap[v], m.kont, m.held);
    m.held := m.held + Held1(x);
    if x.Some? {
      FieldIsValue(h, m.kont, old(m.held), v, x.value);
    }
  }

  /** The slots after field `i` of the cell went where it goes: into its binder, or
      nowhere. */
  function Bound(locals: seq<Option<Ref>>, base: nat, bind: seq<bool>, fields: seq<Option<Ref>>, k: nat): (r: seq<Option<Ref>>)
    requires k <= |bind| == |fields| && base + |bind| <= |locals|
    ensures |r| == |locals|
  {
    if k == 0 then locals
    else
      var before := Bound(locals, base, bind, fields, k - 1);
      if bind[k - 1] then before[base + k - 1 := fields[k - 1]] else before
  }

  /** Put a value we hold in a slot, taking out what was there. */
  method Exchange(m: Machine, f: Ref, l: nat, x: Option<Ref>, v: Ref) returns (was: Option<Ref>)
    requires Inv(m, None) && InOurHands(m, v) && f < |m.heap| && m.heap[f].payload.Activation?
    requires ValueSlot(m.heap[f].payload, l) && Held1(x) + multiset{f, v} <= m.held && (x.Some? ==> ValueAt(m.heap, x.value))
    modifies m
    ensures Inv(m, None) && InOurHands(m, v) && m.kont == old(m.kont)
    ensures m.held == old(m.held) - Held1(x) + Held1(was) && was != Some(v) && was != Some(f)
    ensures v < |m.heap| && m.heap[v].payload == old(m.heap)[v].payload
    ensures var p := old(m.heap)[f].payload; SlotsAre(m.heap, f, p, p.locals[l := x])
    ensures SameTrees(old(m.heap), m.heap, Some(v))
  {
    hide Good, Den, SameTree, SameTrees, Held1;
    NoSlotHas(m.heap, m.kont, m.held, f, l, v);
    ActivationSameTrees(m.heap, f, m.heap[f].(payload := m.heap[f].payload.(locals := m.heap[f].payload.locals[l := x])), m.kont, m.held, v);
    was := PutSlot(m, f, l, x);
    assert (old(m.held) - Held1(x))[v] > 0;
  }

  /** Put a value we hold in a slot, dropping what was there. */
  method Replace(m: Machine, f: Ref, l: nat, x: Option<Ref>, v: Ref)
    requires Inv(m, None) && InOurHands(m, v) && m.held[f] > 0 && f < |m.heap| && m.heap[f].payload.Activation?
    requires ValueSlot(m.heap[f].payload, l) && Held1(x) + multiset{f, v} <= m.held && (x.Some? ==> ValueAt(m.heap, x.value))
    modifies m
    ensures Inv(m, None) && InOurHands(m, v) && m.kont == old(m.kont) && m.held == old(m.held) - Held1(x)
    ensures v < |m.heap| && m.heap[v].payload == old(m.heap)[v].payload
    ensures var p := old(m.heap)[f].payload; SlotsAre(m.heap, f, p, p.locals[l := x])
    ensures SameTrees(old(m.heap), m.heap, Some(v))
  {
    hide Good, Inv, InOurHands, Den, SameTree, SameTrees;
    ghost var h, held := m.heap, m.held;
    assert (held - Held1(x))[f] > 0;
    var was := Exchange(m, f, l, x, v);
    ghost var h1 := m.heap;
    if was.Some? {
      DropBeside(m, was.value, v, f);
      SameTreesCompose(h, h1, m.heap, Some(v));
    }
    assert m.held == held - Held1(x);
  }

  /** The slots of an activation do not hold a cell that is only in our hands. */
  lemma NoSlotHas(h: Store, kont: seq<KFrame>, held: multiset<Ref>, f: Ref, l: nat, v: Ref)
    requires Good(h, kont, held, None) && held[v] > 0 && v < |h| && h[v].rc == 1
    requires f < |h| && h[f].payload.Activation? && l < |h[f].payload.locals|
    ensures h[f].payload.locals[l] != Some(v) && h[f].payload.locals[l] != Some(f)
  {
    hide AllRefs, AllBounds, Kinded, SegOk, Intact, SegRefs, SegBounds;
    if h[f].payload.locals[l].Some? {
      hide Exact, Tallied, Present;
      BoxInSlot(h, kont, held, f, l);
      SlotCounted(h, kont, held, f, l);
    }
  }

  lemma SlotCounted(h: Store, kont: seq<KFrame>, held: multiset<Ref>, f: Ref, l: nat)
    requires Good(h, kont, held, None)
    requires f < |h| && h[f].payload.Activation? && l < |h[f].payload.locals| && h[f].payload.locals[l].Some?
    ensures var x := h[f].payload.locals[l].value; x < |h| && (held[x] > 0 ==> h[x].rc > 1)
  {
    hide AllRefs, AllBounds, Kinded, SegOk, Intact, SegRefs, SegBounds, Present;
    var x := h[f].payload.locals[l].value;
    BoxInSlot(h, kont, held, f, l);
    RefsBelow(h, f);
    PresentHas(h[f].payload.locals, None, l);
    assert Refs(f, h[f].payload)[x] > 0;
    assert h[x].rc == (AllRefs(h) + (SegRefs(kont) + held))[x];
  }

  /** Changing an activation changes no value. */
  lemma ActivationSameTrees(h: Store, f: Ref, o: Obj, kont: seq<KFrame>, held: multiset<Ref>, v: Ref)
    requires Good(h, kont, held, None) && f < |h| && h[f].payload.Activation? && o.payload.Activation?
    requires held[v] > 0 && v < |h| && h[v].rc == 1
    ensures SameTrees(h, h[f := o], Some(v))
  {
    hide Good, Den, SameTree;
    ChangeSameTrees(h, f, o, kont, held);
    var h' := h[f := o];
    forall y: Ref | y < |h'| && IsValue(h'[y].payload) && Some(y) != Some(v)
      ensures SameTree(h, h', y)
    {
      assert y != f;
    }
  }

  /** One field of the dying cell goes to its binder, or is dropped. */
  method MoveField(m: Machine, f: Ref, v: Ref, i: nat, l: nat, bind: bool)
    requires Inv(m, None) && InOurHands(m, v) && multiset{f, v} <= m.held && f < |m.heap| && m.heap[f].payload.Activation?
    requires i < |m.heap[v].payload.fields| && l < |m.heap[f].payload.locals| && (bind ==> ValueSlot(m.heap[f].payload, l))
    modifies m
    ensures Inv(m, None) && InOurHands(m, v) && m.kont == old(m.kont) && m.held == old(m.held)
    ensures v < |m.heap| && m.heap[v].payload == old(m.heap)[v].payload.(fields := old(m.heap)[v].payload.fields[i := None])
    ensures var p := old(m.heap)[f].payload;
            SlotsAre(m.heap, f, p, if bind then p.locals[l := old(m.heap)[v].payload.fields[i]] else p.locals)
    ensures SameTrees(old(m.heap), m.heap, Some(v))
  {
    hide Good, Inv, Den, SameTree;
    ghost var h, held := m.heap, m.held;
    assert f != v;
    var x := TakeField(m, v, i);
    ghost var h1 := m.heap;
    if bind {
      assert Held1(x) + multiset{f, v} <= m.held;
      Replace(m, f, l, x, v);
      SameTreesCompose(h, h1, m.heap, Some(v));
      assert m.held == held;
    } else if x.Some? {
      assert x.value != f by { assert ValueAt(m.heap, x.value); }
      DropBeside(m, x.value, v, f);
      SameTreesCompose(h, h1, m.heap, Some(v));
      assert m.held == held;
    } else {
      assert m.held == held;
    }
  }

  /** The binders of a case alternative are value slots. */
  predicate Binders(p: Payload, base: nat, bind: seq<bool>)
    requires p.Activation?
  {
    forall i :: 0 <= i < |bind| && bind[i] && base + i < |p.locals| ==> ValueSlot(p, base + i)
  }

  /** Move every field of the dying cell out. */
  method MoveFields(m: Machine, f: Ref, v: Ref, base: nat, bind: seq<bool>)
    requires Inv(m, None) && InOurHands(m, v) && multiset{f, v} <= m.held && f < |m.heap| && m.heap[f].payload.Activation?
    requires |bind| == |m.heap[v].payload.fields| && base + |bind| <= |m.heap[f].payload.locals| && Binders(m.heap[f].payload, base, bind)
    modifies m
    ensures Inv(m, None) && InOurHands(m, v) && m.kont == old(m.kont) && m.held == old(m.held)
    ensures v < |m.heap| && Hollow(m.heap[v].payload) && |m.heap[v].payload.fields| == |bind|
    ensures var p := old(m.heap)[f].payload;
            SlotsAre(m.heap, f, p, Bound(p.locals, base, bind, old(m.heap)[v].payload.fields, |bind|))
    ensures SameTrees(old(m.heap), m.heap, Some(v))
  {
    hide Good, Inv, Den, SameTree, SameTrees;
    ghost var fields, p := m.heap[v].payload.fields, m.heap[f].payload;
    NothingChanged(m.heap, Some(v));
    for i := 0 to |bind|
      invariant Inv(m, None) && InOurHands(m, v) && m.kont == old(m.kont) && m.held == old(m.held)
      invariant |m.heap[v].payload.fields| == |bind|
      invariant forall j :: 0 <= j < i ==> m.heap[v].payload.fields[j].None?
      invariant forall j :: i <= j < |bind| ==> m.heap[v].payload.fields[j] == fields[j]
      invariant SlotsAre(m.heap, f, p, Bound(p.locals, base, bind, fields, i))
      invariant SameTrees(old(m.heap), m.heap, Some(v))
    {
      ghost var h1 := m.heap;
      MoveField(m, f, v, i, base + i, bind[i]);
      SameTreesCompose(old(m.heap), h1, m.heap, Some(v));
    }
  }

  lemma NothingChanged(h: Store, but: Option<Ref>)
    ensures SameTrees(h, h, but)
  {
  }

  /** The slots an unpacked cell leaves: the scrutinee's empty, the fields in their
      binders, and the token slot as given. */
  function UnpackedSlots(locals: seq<Option<Ref>>, slot: nat, base: nat, bind: seq<bool>, fields: seq<Option<Ref>>,
                         token: Option<nat>, cell: Option<Ref>): seq<Option<Ref>>
    requires slot < |locals| && |bind| == |fields| && base + |bind| <= |locals|
    requires token.Some? ==> token.value < |locals|
  {
    var bound := Bound(locals[slot := None], base, bind, fields, |bind|);
    if token.Some? then bound[token.value := cell] else bound
  }

  /** Unpack a cell nobody else holds: its fields move into the binders, and the
      emptied cell is freed, or parked in the token slot. */
  method UnpackOwned(m: Machine, f: Ref, v: Ref, slot: nat, token: Option<nat>, base: nat, bind: seq<bool>)
    requires Inv(m, None) && m.held[f] > 0 && f < |m.heap| && m.heap[f].payload.Activation?
    requires ValueSlot(m.heap[f].payload, slot) && v < |m.heap| && IsVariant(m.heap[v].payload) && Dying(m.heap, f, slot, v)
    requires |bind| == |m.heap[v].payload.fields| && base + |bind| <= |m.heap[f].payload.locals| && Binders(m.heap[f].payload, base, bind)
    requires token.Some? ==> TokenSlot(m.heap[f].payload, token.value)
    modifies m
    ensures Inv(m, None) && m.kont == old(m.kont) && m.held == old(m.held)
    ensures var p := old(m.heap)[f].payload;
            SlotsAre(m.heap, f, p, UnpackedSlots(p.locals, slot, base, bind, old(m.heap)[v].payload.fields, token, Some(v)))
    ensures v < |m.heap| && if token.Some? then IsParked(m.heap[v].payload) && |m.heap[v].payload.fields| == |bind| else m.heap[v].payload.Freed?
    ensures SameTrees(old(m.heap), m.heap, None)
  {
    hide Good, Inv, Den, SameTree, SameTrees;
    ghost var h, held := m.heap, m.held;
    BoxInSlotM(m, f, slot);
    var was := PutSlot(m, f, slot, None);
    ghost var h1 := m.heap;
    assert m.held == held + multiset{v};
    assert multiset{f, v} <= m.held;
    EmptiedSlot(h, h1, f, m, v);
    MoveFields(m, f, v, base, bind);
    ghost var h2 := m.heap;
    SameTreesCompose(h, h1, h2, Some(v));
    ParkOrFree(m, f, v, token);
    SameTreesCompose(h, h2, m.heap, Some(v));
    GoneSame(h, m.heap, v);
    assert m.held == held;
  }

  /** The emptied cell is parked in the token slot if there is one, and freed if not. */
  method ParkOrFree(m: Machine, f: Ref, v: Ref, token: Option<nat>)
    requires Inv(m, None) && InOurHands(m, v) && Hollow(m.heap[v].payload) && multiset{f, v} <= m.held
    requires f < |m.heap| && m.heap[f].payload.Activation? && (token.Some? ==> TokenSlot(m.heap[f].payload, token.value))
    modifies m
    ensures Inv(m, None) && m.kont == old(m.kont) && m.held == old(m.held) - multiset{v}
    ensures var p := old(m.heap)[f].payload; SlotsAre(m.heap, f, p, if token.Some? then p.locals[token.value := Some(v)] else p.locals)
    ensures v < |m.heap| && if token.Some? then IsParked(m.heap[v].payload) && |m.heap[v].payload.fields| == |old(m.heap)[v].payload.fields|
                            else m.heap[v].payload.Freed?
    ensures SameTrees(old(m.heap), m.heap, Some(v))
  {
    hide Good, Inv, Den, SameTree, SameTrees;
    ghost var h := m.heap;
    if token.Some? {
      ParkCell(m, f, token.value, v);
      SameTreesWeaken(h, m.heap, v);
    } else {
      FreeCell(m, f, v);
    }
  }

  lemma BoxInSlotM(m: Machine, f: Ref, slot: nat)
    requires Inv(m, None) && f < |m.heap| && m.heap[f].payload.Activation?
    requires slot < |m.heap[f].payload.locals| && m.heap[f].payload.locals[slot].Some?
    ensures var box := m.heap[f].payload.locals[slot].value;
            && box != f && box < |m.heap| && IsCell(m.heap[box].payload) && m.heap[box].rc > 0
            && slot < |m.heap[f].payload.tokens|
            && (if m.heap[f].payload.tokens[slot] then ParkedAt(m.heap, box) else ValueAt(m.heap, box))
  {
    hide Good;
    BoxInSlot(m.heap, m.kont, m.held, f, slot);
  }

  lemma EmptiedSlot(h: Store, h1: Store, f: Ref, m: Machine, v: Ref)
    requires Inv(m, None) && m.heap == h1 && m.held[v] > 0 && v < |h1| && h1[v].rc == 1
    requires f < |h| && h[f].payload.Activation? && |h| == |h1| && h1[f].payload.Activation?
    requires forall y :: 0 <= y < |h| && y != f ==> h1[y] == h[y]
    ensures SameTrees(h, h1, Some(v))
  {
    hide Good, Den;
    InHandAlone(h1, m.kont, m.held, v);
    forall y: Ref | y < |h1| && IsValue(h1[y].payload) && Some(y) != Some(v)
      ensures y < |h| && h1[y].payload == h[y].payload
      ensures forall c: Ref :: IsChild(h1[y].payload, c) ==> c < |h1| && IsValue(h1[c].payload) && Some(c) != Some(v)
    {
      forall c: Ref | IsChild(h1[y].payload, c)
        ensures ValueAt(h1, c) && c != v
      {
        ChildAlive(h1, m.kont, m.held, y, c);
      }
    }
    ClosedSame(h, h1, Some(v));
  }

  /** Nothing on the stack or in the heap names `v`, so it may become another kind of
      object. */
  lemma AloneKinded(h: Store, kont: seq<KFrame>, held: multiset<Ref>, v: Ref, q: Payload)
    requires Good(h, kont, held, None) && held[v] > 0 && v < |h| && h[v].rc == 1
    requires IsCell(h[v].payload) && !h[v].payload.Resumption? && !q.Freed? && !q.Resumption?
    requires PayloadOk(h[v := h[v].(payload := q)], q)
    ensures var h' := h[v := h[v].(payload := q)]; Kinded(h') && SegOk(h', kont) && Intact(h', None)
  {
    hide PayloadOk, FrameOk, SegRefs, SegBounds, AllRefs, AllBounds, Refs, Bounds;
    var h' := h[v := h[v].(payload := q)];
    var live := multiset(set x: Ref | x < |h| && !h[x].payload.Freed? && x != v);
    assert h[v].rc == (AllRefs(h) + (SegRefs(kont) + held))[v];
    assert AllRefs(h)[v] == 0 && SegRefs(kont)[v] == 0;
    assert KeepsKind(h, h', live);
    forall j | 0 <= j < |h'|
      ensures PayloadOk(h', h'[j].payload)
    {
      if j != v {
        AlonePayload(h, h', kont, held, live, v, j);
      }
    }
    forall x | x in SegRefs(kont)
      ensures x in live
    {
      RootAlive(h, SegRefs(kont) + held, SegBounds(kont) + multiset{}, [], x);
    }
    SegKept(h, h', live, kont);
    AloneIntact(h, v, q);
  }

  lemma AlonePayload(h: Store, h': Store, kont: seq<KFrame>, held: multiset<Ref>, live: multiset<Ref>, v: Ref, j: Ref)
    requires Good(h, kont, held, None) && AllRefs(h)[v] == 0 && j < |h| == |h'| && j != v && h'[j] == h[j]
    requires KeepsKind(h, h', live) && live == multiset(set x: Ref | x < |h| && !h[x].payload.Freed? && x != v)
    ensures PayloadOk(h', h'[j].payload)
  {
    hide PayloadOk, FrameOk, SegRefs, SegBounds, AllRefs, AllBounds, Refs, Bounds, KeepsKind;
    if h[j].payload.Freed? {
      FreedOk(h', h[j].payload);
    } else {
      RefsAlive(h, SegRefs(kont) + held, SegBounds(kont) + multiset{}, [], j);
      RefsBelow(h, j);
      forall x | x in Refs(j, h[j].payload)
        ensures x in live
      {
        assert Refs(j, h[j].payload)[x] <= AllRefs(h)[x];
      }
      assert PayloadOk(h, h[j].payload);
      PayloadKept(h, h', live, j, h[j].payload);
    }
  }

  lemma FreedOk(h: Store, p: Payload)
    requires p.Freed?
    ensures PayloadOk(h, p)
  {
  }

  lemma AloneIntact(h: Store, v: Ref, q: Payload)
    requires Intact(h, None) && v < |h| && !h[v].payload.Slice? && !q.Resumption?
    ensures Intact(h[v := h[v].(payload := q)], None)
  {
  }

  /** Changing a cell that is only in our hands, for one that takes over `taken`. */
  lemma AloneGood(h: Store, kont: seq<KFrame>, held: multiset<Ref>, v: Ref, q: Payload)
    requires Good(h, kont, held, None) && held[v] > 0 && v < |h| && h[v].rc == 1
    requires h[v].payload.Node? && q.Node? && Refs(v, h[v].payload) == multiset{} && Refs(v, q) <= held
    requires PayloadOk(h[v := h[v].(payload := q)], q)
    ensures Good(h[v := h[v].(payload := q)], kont, held - Refs(v, q), None)
  {
    AloneKinded(h, kont, held, v, q);
    hide Exact, Kinded, SegOk, Intact, SegRefs, SegBounds, Refs, PayloadOk;
    NoBounds(h[v].payload, q);
    ChangeObject(h, SegRefs(kont) + held, SegBounds(kont) + multiset{}, [], v, q,
                 SegRefs(kont) + (held - Refs(v, q)), SegBounds(kont) + multiset{});
  }

  /** The emptied cell, to be parked. */
  function ParkedCell(p: Payload): Payload
    requires IsVariant(p)
  {
    p.(shape := Parked(p.shape.ty, p.shape.tag))
  }

  lemma ParkGood(h: Store, kont: seq<KFrame>, held: multiset<Ref>, v: Ref)
    requires Good(h, kont, held, None) && held[v] > 0 && v < |h| && h[v].rc == 1 && Hollow(h[v].payload)
    ensures var h' := h[v := h[v].(payload := ParkedCell(h[v].payload))]; Good(h', kont, held, None) && SameTrees(h, h', None)
  {
    hide Good, Den;
    var p, q := h[v].payload, ParkedCell(h[v].payload);
    HollowOwnsNothing(v, p);
    NoneOwnsNothing(q.fields, Some(v));
    AloneGood(h, kont, held, v, q);
    assert held - Refs(v, q) == held;
    InHandAlone(h, kont, held, v);
    DifferOnlyIn(h, h[v := h[v].(payload := q)], v, kont, held);
    GoneSame(h, h[v := h[v].(payload := q)], v);
  }

  /** Park the emptied cell in the token slot. */
  method ParkCell(m: Machine, f: Ref, t: nat, v: Ref)
    requires Inv(m, None) && InOurHands(m, v) && Hollow(m.heap[v].payload) && multiset{f, v} <= m.held
    requires f < |m.heap| && m.heap[f].payload.Activation? && TokenSlot(m.heap[f].payload, t)
    modifies m
    ensures Inv(m, None) && m.kont == old(m.kont) && m.held == old(m.held) - multiset{v}
    ensures var p := old(m.heap)[f].payload; SlotsAre(m.heap, f, p, p.locals[t := Some(v)])
    ensures v < |m.heap| && IsParked(m.heap[v].payload) && |m.heap[v].payload.fields| == |old(m.heap)[v].payload.fields|
    ensures SameTrees(old(m.heap), m.heap, None)
  {
    hide Good, Den, SameTree, SameTrees;
    ghost var h, held := m.heap, m.held;
    ParkGood(m.heap, m.kont, m.held, v);
    m.heap := m.heap[v := m.heap[v].(payload := ParkedCell(m.heap[v].payload))];
    ghost var h1 := m.heap;
    NoSlotHas(m.heap, m.kont, m.held, f, t, v);
    var was := PutSlot(m, f, t, Some(v));
    ghost var h2 := m.heap;
    SlotTrees(h1, h2, f, m);
    SameTreesCompose(h, h1, h2, None);
    if was.Some? {
      assert m.held == held - multiset{v} + multiset{was.value};
      DropUnparked(m, was.value, f, t, v);
      SameTreesCompose(h, h2, m.heap, None);
      assert m.held == held - multiset{v};
    }
  }

  /** Drop the token slot's old content, the cell now being in that slot alone. */
  method DropUnparked(m: Machine, x: Ref, f: Ref, t: nat, v: Ref)
    requires Inv(m, None) && multiset{x, f} <= m.held && x != v
    requires f < |m.heap| && m.heap[f].payload.Activation? && t < |m.heap[f].payload.locals| && m.heap[f].payload.locals[t] == Some(v)
    requires v < |m.heap| && m.heap[v].rc == 1
    modifies m
    ensures Inv(m, None) && m.kont == old(m.kont) && m.held == old(m.held) - multiset{x}
    ensures f < |m.heap| && m.heap[f].payload == old(m.heap)[f].payload
    ensures v < |m.heap| && m.heap[v].payload == old(m.heap)[v].payload
    ensures SameTrees(old(m.heap), m.heap, None)
  {
    hide Good, Inv, Frees, Den, SameTree;
    ghost var h := m.heap;
    ghost var log := Drop(m, x, None);
    GoodOf(m);
    assert f in m.held;
    HeldStays(h, m.heap, log, m.kont, m.held, f);
    BoxInSlotM(m, f, t);
    NotFreedSame(h, m.heap, log, v);
    FreesSameTrees(h, m.heap, log, m.kont, m.held, None);
  }

  /** Free the emptied cell. */
  method FreeCell(m: Machine, f: Ref, v: Ref)
    requires Inv(m, None) && InOurHands(m, v) && multiset{f, v} <= m.held && f < |m.heap|
    modifies m
    ensures Inv(m, None) && m.kont == old(m.kont) && m.held == old(m.held) - multiset{v}
    ensures f < |m.heap| && m.heap[f].payload == old(m.heap)[f].payload
    ensures v < |m.heap| && m.heap[v].payload.Freed?
    ensures SameTrees(old(m.heap), m.heap, Some(v))
  {
    hide Frees, Den, SameTree, Exact, Kinded, SegOk, Intact, SegRefs, SegBounds;
    ghost var h, held := m.heap, m.held;
    Peel(held, v, multiset{f});
    ghost var log := Drop(m, v, None);
    assert f in m.held;
    HeldStays(h, m.heap, log, m.kont, m.held, f);
    assert SegRefs(m.kont) + (held - multiset{v}) == SegRefs(m.kont) + held - multiset{v};
    TheLast(h, m.heap, SegRefs(m.kont) + held, SegBounds(m.kont) + multiset{}, log, v);
    FreesSameTrees(h, m.heap, log, m.kont, m.held, None);
  }

  // ---- a shared scrutinee -------------------------------------------------

  /** Something keeps the scrutinee alive while its fields are shared out: a slot of
      `f` other than the binders, or a reference in hand. */
  ghost predicate Kept(m: Machine, f: Ref, v: Ref, slot: nat)
    reads m
  {
    f < |m.heap| && m.heap[f].payload.Activation? && slot < |m.heap[f].payload.locals|
    && (m.heap[f].payload.locals[slot] == Some(v) || m.held[v] > 0)
  }

  lemma KeptAlive(m: Machine, f: Ref, v: Ref, slot: nat)
    requires Inv(m, None) && Kept(m, f, v, slot)
    ensures v < |m.heap| && m.heap[v].rc > 0 && !m.heap[v].payload.Freed?
  {
    hide Good;
    if m.held[v] > 0 {
      HeldCounted(m.heap, m.kont, m.held, v);
    } else {
      BoxInSlot(m.heap, m.kont, m.held, f, slot);
    }
  }

  /** Put a value we took a reference on in a slot, taking out what was there. */
  method PutTaken(m: Machine, f: Ref, l: nat, x: Option<Ref>, ghost held: multiset<Ref>) returns (was: Option<Ref>)
    requires Inv(m, None) && f < |m.heap| && m.heap[f].payload.Activation? && ValueSlot(m.heap[f].payload, l)
    requires m.held == held + Held1(x) && (x.Some? ==> ValueAt(m.heap, x.value))
    modifies m
    ensures Inv(m, None) && m.kont == old(m.kont) && m.held == held + Held1(was)
    ensures |m.heap| == |old(m.heap)| && forall y :: 0 <= y < |m.heap| && y != f ==> m.heap[y] == old(m.heap)[y]
    ensures var p := old(m.heap)[f].payload; SlotsAre(m.heap, f, p, p.locals[l := x])
    ensures SameTrees(old(m.heap), m.heap, None)
  {
    hide Good, Inv, Den, SameTree, SameTrees, Held1;
    ghost var h := m.heap;
    was := PutSlot(m, f, l, x);
    SlotTrees(h, m.heap, f, m);
  }

  /** Put a value in a slot with a reference of its own, taking out what was there. */
  method PutShared(m: Machine, f: Ref, l: nat, x: Option<Ref>, ghost v: Ref, ghost slot: nat) returns (was: Option<Ref>)
    requires Inv(m, None) && Kept(m, f, v, slot) && l != slot && ValueSlot(m.heap[f].payload, l)
    requires x.Some? ==> ValueAt(m.heap, x.value) && m.heap[x.value].rc > 0
    requires v < |m.heap| && v != f
    modifies m
    ensures Inv(m, None) && m.kont == old(m.kont) && m.held == old(m.held) + Held1(was) && Kept(m, f, v, slot)
    ensures var p := old(m.heap)[f].payload; SlotsAre(m.heap, f, p, p.locals[l := x])
    ensures v < |m.heap| && m.heap[v].payload == old(m.heap)[v].payload
    ensures SameTrees(old(m.heap), m.heap, None)
  {
    hide Good, Inv, Den, SameTree, SameTrees, IsCell, Held1;
    ghost var h, held := m.heap, m.held;
    RetainSome(m, x);
    ghost var h1 := m.heap;
    SameCountTrees(h, h1);
    was := PutTaken(m, f, l, x, held);
    SameTreesCompose(h, h1, m.heap, None);
  }

  lemma SameCountTrees(h: Store, h': Store)
    requires SameButCounts(h, h')
    ensures SameTrees(h, h', None)
  {
    forall y: Ref | y < |h'| && IsValue(h'[y].payload)
      ensures SameTree(h, h', y)
    {
      forall n: nat
        ensures Den(h', Some(y), n) == Den(h, Some(y), n)
      {
        SameCountDen(h, h', Some(y), n);
      }
    }
  }

  lemma {:induction false} SameCountDen(h: Store, h': Store, x: Option<Ref>, n: nat)
    requires SameButCounts(h, h')
    ensures Den(h', x, n) == Den(h, x, n)
    decreases n
  {
    if n > 0 && x.Some? && x.value < |h| {
      match h[x.value].payload
      case Node(_, fields) =>
        forall i | 0 <= i < |fields|
          ensures Den(h', fields[i], n - 1) == Den(h, fields[i], n - 1)
        {
          SameCountDen(h, h', fields[i], n - 1);
        }
      case Link(target) => SameCountDen(h, h', Some(target), n - 1);
      case _ =>
    }
  }

  /** A reference of its own on a value, if there is one. */
  method RetainSome(m: Machine, x: Option<Ref>)
    requires Inv(m, None) && (x.Some? ==> ValueAt(m.heap, x.value) && m.heap[x.value].rc > 0)
    modifies m
    ensures Inv(m, None) && m.kont == old(m.kont) && m.held == old(m.held) + Held1(x) && SameButCounts(old(m.heap), m.heap)
    ensures x.Some? ==> ValueAt(m.heap, x.value)
  {
    hide Good, Inv;
    if x.Some? {
      Retain(m, x.value, None);
    }
  }

  /** Put a value in a slot with a reference of its own, dropping what was there. */
  method SetLocal(m: Machine, f: Ref, l: nat, x: Option<Ref>, ghost v: Ref, ghost slot: nat)
    requires Inv(m, None) && m.held[f] > 0 && Kept(m, f, v, slot) && l != slot && ValueSlot(m.heap[f].payload, l)
    requires x.Some? ==> ValueAt(m.heap, x.value) && m.heap[x.value].rc > 0
    requires v < |m.heap| && IsVariant(m.heap[v].payload)
    modifies m
    ensures Inv(m, None) && m.kont == old(m.kont) && m.held == old(m.held) && Kept(m, f, v, slot)
    ensures var p := old(m.heap)[f].payload; SlotsAre(m.heap, f, p, p.locals[l := x])
    ensures v < |m.heap| && m.heap[v].payload == old(m.heap)[v].payload
    ensures SameTrees(old(m.heap), m.heap, None)
  {
    assert f != v;
    KeptSlots(m, f, v, slot);
    hide Good, Inv, Den, SameTree, SameTrees, IsVariant, ValueAt, Held1, Kept;
    ghost var h, held := m.heap, m.held;
    var was := PutShared(m, f, l, x, v, slot);
    ghost var h1 := m.heap;
    DropSlot(m, was, held, f, v, slot);
    SameTreesCompose(h, h1, m.heap, None);
  }

  /** Drop what came out of a slot, if anything. */
  method DropSlot(m: Machine, was: Option<Ref>, ghost held: multiset<Ref>, f: Ref, ghost v: Ref, ghost slot: nat)
    requires Inv(m, None) && m.held == held + Held1(was) && held[f] > 0 && Kept(m, f, v, slot)
    requires held[v] > 0 || m.heap[f].payload.locals[slot] == Some(v)
    modifies m
    ensures Inv(m, None) && m.kont == old(m.kont) && m.held == held && Kept(m, f, v, slot)
    ensures f < |m.heap| && m.heap[f].payload == old(m.heap)[f].payload
    ensures v < |old(m.heap)| && v < |m.heap| && m.heap[v].payload == old(m.heap)[v].payload
    ensures SameTrees(old(m.heap), m.heap, None)
  {
    hide Good, Inv, Den, SameTree, SameTrees;
    if was.Some? {
      assert m.held - multiset{was.value} == held;
      DropOld(m, was.value, f, v, slot);
    } else {
      KeptAlive(m, f, v, slot);
      NothingChanged(m.heap, None);
    }
  }

  lemma KeptSlots(m: Machine, f: Ref, v: Ref, slot: nat)
    requires Kept(m, f, v, slot)
    ensures f < |m.heap| && m.heap[f].payload.Activation? && slot < |m.heap[f].payload.locals|
    ensures m.heap[f].payload.locals[slot] == Some(v) || m.held[v] > 0
  {
  }

  lemma SlotTrees(h: Store, h1: Store, f: Ref, m: Machine)
    requires Inv(m, None) && m.heap == h1 && |h| == |h1|
    requires f < |h| && h[f].payload.Activation? && h1[f].payload.Activation?
    requires forall y :: 0 <= y < |h| && y != f ==> h1[y].payload == h[y].payload
    ensures SameTrees(h, h1, None)
  {
    hide Good, Den;
    forall y: Ref | y < |h1| && IsValue(h1[y].payload)
      ensures y < |h| && h1[y].payload == h[y].payload
      ensures forall c: Ref :: IsChild(h1[y].payload, c) ==> c < |h1| && IsValue(h1[c].payload)
    {
      forall c: Ref | IsChild(h1[y].payload, c)
        ensures ValueAt(h1, c)
      {
        ChildAlive(h1, m.kont, m.held, y, c);
      }
    }
    assert Closed(h, h1, None);
    ClosedSame(h, h1, None);
  }

  method DropOld(m: Machine, x: Ref, f: Ref, ghost v: Ref, ghost slot: nat)
    requires Inv(m, None) && Kept(m, f, v, slot) && multiset{x, f} <= m.held
    requires m.held[v] > 0 ==> (m.held - multiset{x})[v] > 0 || m.heap[f].payload.locals[slot] == Some(v)
    modifies m
    ensures Inv(m, None) && m.kont == old(m.kont) && m.held == old(m.held) - multiset{x} && Kept(m, f, v, slot)
    ensures f < |m.heap| && m.heap[f].payload == old(m.heap)[f].payload
    ensures v < |old(m.heap)| && v < |m.heap| && m.heap[v].payload == old(m.heap)[v].payload
    ensures SameTrees(old(m.heap), m.heap, None)
  {
    hide Good, Inv, Frees, Den, SameTree;
    ghost var h := m.heap;
    KeptAlive(m, f, v, slot);
    ghost var log := Drop(m, x, None);
    GoodOf(m);
    assert f in m.held;
    HeldStays(h, m.heap, log, m.kont, m.held, f);
    KeptAlive(m, f, v, slot);
    NotFreedSame(h, m.heap, log, v);
    FreesSameTrees(h, m.heap, log, m.kont, m.held, None);
  }

  lemma FieldAlive(m: Machine, v: Ref, i: nat)
    requires Inv(m, None) && v < |m.heap| && IsVariant(m.heap[v].payload) && m.heap[v].rc > 0
    requires i < |m.heap[v].payload.fields| && m.heap[v].payload.fields[i].Some?
    ensures var x := m.heap[v].payload.fields[i].value; ValueAt(m.heap, x) && x < |m.heap| && m.heap[x].rc > 0
  {
    hide Good;
    var p := m.heap[v].payload;
    var x := p.fields[i].value;
    assert p.fields[i] in p.fields;
    ChildAlive(m.heap, m.kont, m.held, v, x);
    PayloadCounted(m.heap, m.kont, m.held, None, v);
  }

  /** Share the fields of `v` out to the binders that are read. */
  method ShareFields(m: Machine, f: Ref, v: Ref, slot: nat, base: nat, bind: seq<bool>)
    requires Inv(m, None) && m.held[f] > 0 && Kept(m, f, v, slot) && v < |m.heap| && IsVariant(m.heap[v].payload)
    requires |bind| == |m.heap[v].payload.fields| && base + |bind| <= |m.heap[f].payload.locals| && Binders(m.heap[f].payload, base, bind)
    requires !(base <= slot < base + |bind|)
    modifies m
    ensures Inv(m, None) && m.kont == old(m.kont) && m.held == old(m.held) && Kept(m, f, v, slot)
    ensures v < |m.heap| && m.heap[v].payload == old(m.heap)[v].payload
    ensures var p := old(m.heap)[f].payload;
            SlotsAre(m.heap, f, p, Bound(p.locals, base, bind, old(m.heap)[v].payload.fields, |bind|))
    ensures SameTrees(old(m.heap), m.heap, None)
  {
    hide Good, Inv, Den, SameTree, SameTrees;
    ghost var p := m.heap[f].payload;
    ghost var fields := m.heap[v].payload.fields;
    NothingChanged(m.heap, None);
    for i := 0 to |bind|
      invariant Inv(m, None) && m.kont == old(m.kont) && m.held == old(m.held) && Kept(m, f, v, slot)
      invariant v < |m.heap| && m.heap[v].payload == old(m.heap)[v].payload
      invariant SlotsAre(m.heap, f, p, Bound(p.locals, base, bind, fields, i))
      invariant SameTrees(old(m.heap), m.heap, None)
    {
      if bind[i] {
        ghost var h1 := m.heap;
        KeptAlive(m, f, v, slot);
        var x := m.heap[v].payload.fields[i];
        if x.Some? {
          FieldAlive(m, v, i);
        }
        SetLocal(m, f, base + i, x, v, slot);
        SameTreesCompose(old(m.heap), h1, m.heap, None);
      }
    }
  }

  lemma EverySlotMarked(m: Machine, f: Ref)
    requires Inv(m, None) && f < |m.heap| && m.heap[f].payload.Activation?
    ensures |m.heap[f].payload.tokens| == |m.heap[f].payload.locals|
  {
    hide Exact, SegOk, Intact, SegRefs, SegBounds;
    assert PayloadOk(m.heap, m.heap[f].payload);
  }

  /** Empty a slot of `f`, dropping what it held. */
  method ClearSlot(m: Machine, f: Ref, l: nat)
    requires Inv(m, None) && m.held[f] > 0 && f < |m.heap| && m.heap[f].payload.Activation? && l < |m.heap[f].payload.locals|
    modifies m
    ensures Inv(m, None) && m.kont == old(m.kont) && m.held == old(m.held)
    ensures var p := old(m.heap)[f].payload; SlotsAre(m.heap, f, p, p.locals[l := None])
    ensures SameTrees(old(m.heap), m.heap, None) && StillHeld(old(m.heap), m.heap, m.held, f)
  {
    hide Good, Inv, Frees, Den, SameTree, SameTrees, StillHeld;
    ghost var h, held := m.heap, m.held;
    EverySlotMarked(m, f);
    var was := PutSlot(m, f, l, None);
    ghost var h1 := m.heap;
    SlotTrees(h, h1, f, m);
    if was.Some? {
      assert m.held == held + multiset{was.value};
      ghost var log := Drop(m, was.value, None);
      assert m.held == held;
      GoodOf(m);
      HeldStays(h1, m.heap, log, m.kont, m.held, f);
      FreesSameTrees(h1, m.heap, log, m.kont, m.held, None);
      SameTreesCompose(h, h1, m.heap, None);
      StillHeldBy(h, h1, m.heap, log, m.kont, m.held, f);
    } else {
      assert m.held == held;
      GoodOf(m);
      FreesNothing(m.heap);
      StillHeldBy(h, h1, m.heap, [], m.kont, m.held, f);
    }
  }

  /** What is held, other than `f` itself, has the payload it had. */
  ghost predicate StillHeld(h: Store, h': Store, held: multiset<Ref>, f: Ref) {
    forall y: Ref :: y in held && y != f ==> y < |h| && y < |h'| && h'[y].payload == h[y].payload
  }

  lemma FreesNothing(h: Store)
    ensures Frees(h, h, [])
  {
  }

  lemma StillHeldBy(h: Store, h1: Store, h2: Store, log: seq<Ref>, kont: seq<KFrame>, held: multiset<Ref>, f: Ref)
    requires |h1| == |h| && forall y :: 0 <= y < |h| && y != f ==> h1[y].payload == h[y].payload
    requires Frees(h1, h2, log) && Good(h2, kont, held, None)
    ensures StillHeld(h, h2, held, f)
  {
    hide Good, Frees;
    forall y: Ref | y in held && y != f
      ensures y < |h| && y < |h2| && h2[y].payload == h[y].payload
    {
      HeldStays(h1, h2, log, kont, held, y);
    }
  }

  /** Unpack a cell something else still holds: the binders share its fields, the
      scrutinee's slot gives its reference up, and there is no token. */
  method UnpackShared(m: Machine, f: Ref, v: Ref, slot: nat, token: Option<nat>, base: nat, bind: seq<bool>)
    requires Inv(m, None) && m.held[f] > 0 && Kept(m, f, v, slot) && v < |m.heap| && IsVariant(m.heap[v].payload)
    requires |bind| == |m.heap[v].payload.fields| && base + |bind| <= |m.heap[f].payload.locals| && Binders(m.heap[f].payload, base, bind)
    requires !(base <= slot < base + |bind|)
    requires token.Some? ==> token.value < |m.heap[f].payload.locals|
    modifies m
    ensures Inv(m, None) && m.kont == old(m.kont) && m.held == old(m.held)
    ensures var p := old(m.heap)[f].payload;
            SlotsAre(m.heap, f, p, UnpackedSlots(p.locals, slot, base, bind, old(m.heap)[v].payload.fields, token, None))
    ensures SameTrees(old(m.heap), m.heap, None)
  {
    hide Good, Inv, Den, SameTree, SameTrees, Bound;
    ghost var h := m.heap;
    ghost var p := h[f].payload;
    ghost var fields := h[v].payload.fields;
    ShareFields(m, f, v, slot, base, bind);
    ghost var h1 := m.heap;
    ClearSlot(m, f, slot);
    SameTreesCompose(h, h1, m.heap, None);
    BoundCommutes(p.locals, slot, base, bind, fields, |bind|);
    ghost var h2 := m.heap;
    if token.Some? {
      ClearSlot(m, f, token.value);
      SameTreesCompose(h, h2, m.heap, None);
    }
  }

  lemma {:induction false} BoundCommutes(locals: seq<Option<Ref>>, slot: nat, base: nat, bind: seq<bool>, fields: seq<Option<Ref>>, k: nat)
    requires k <= |bind| == |fields| && base + |bind| <= |locals| && slot < |locals| && !(base <= slot < base + |bind|)
    ensures Bound(locals, base, bind, fields, k)[slot := None] == Bound(locals[slot := None], base, bind, fields, k)
  {
    if k > 0 {
      BoundCommutes(locals, slot, base, bind, fields, k - 1);
    }
  }

  // ---- the operation ------------------------------------------------------

  /** The slots a case alternative is compiled with: the scrutinee's and the binders'
      are for values, the token's for a token.  (A slot out of range is a fault.) */
  predicate Compiled(p: Payload, slot: nat, token: Option<nat>, base: nat, bind: seq<bool>)
    requires p.Activation?
  {
    && (slot < |p.locals| ==> ValueSlot(p, slot)) && Binders(p, base, bind) && !(base <= slot < base + |bind|)
    && (token.Some? && token.value < |p.locals| ==> TokenSlot(p, token.value))
  }

  /** The activation `p` became `q`: binder `i` that is read holds field `i` of the cell, the
      scrutinee's slot is empty, the token slot holds `cell`, and every other slot is as it
      was. */
  predicate Distributed(p: Payload, q: Payload, slot: nat, token: Option<nat>, base: nat, bind: seq<bool>, fields: seq<Option<Ref>>,
                        cell: Option<Ref>) {
    && p.Activation? && q.Activation? && |q.locals| == |p.locals| && q.clos == p.clos && q.tokens == p.tokens
    && slot < |p.locals| && |bind| == |fields| && base + |bind| <= |p.locals| && (token.Some? ==> token.value < |p.locals|)
    && (forall i :: 0 <= i < |bind| && bind[i] ==> q.locals[base + i] == fields[i])
    && q.locals[slot].None? && (token.Some? ==> q.locals[token.value] == cell)
    && forall j :: 0 <= j < |p.locals| && j != slot && Some(j) != token && !(base <= j < base + |bind| && bind[j - base]) ==>
         q.locals[j] == p.locals[j]
  }

  lemma {:induction false} BoundAt(locals: seq<Option<Ref>>, base: nat, bind: seq<bool>, fields: seq<Option<Ref>>, k: nat, j: nat)
    requires k <= |bind| == |fields| && base + |bind| <= |locals| && j < |locals|
    ensures Bound(locals, base, bind, fields, k)[j] == if base <= j < base + k && bind[j - base] then fields[j - base] else locals[j]
  {
    if k > 0 {
      BoundAt(locals, base, bind, fields, k - 1, j);
    }
  }

  lemma UnpackedDistributes(p: Payload, slot: nat, token: Option<nat>, base: nat, bind: seq<bool>, fields: seq<Option<Ref>>, cell: Option<Ref>)
    requires p.Activation? && slot < |p.locals| && |bind| == |fields| && base + |bind| <= |p.locals|
    requires Compiled(p, slot, token, base, bind) && (token.Some? ==> token.value < |p.locals|)
    ensures Distributed(p, p.(locals := UnpackedSlots(p.locals, slot, base, bind, fields, token, cell)), slot, token, base, bind, fields, cell)
  {
    var was := p.locals[slot := None];
    var bound := Bound(was, base, bind, fields, |bind|);
    hide Bound;
    forall j: nat | j < |p.locals|
      ensures bound[j] == if base <= j < base + |bind| && bind[j - base] then fields[j - base] else was[j]
    {
      BoundAt(was, base, bind, fields, |bind|, j);
    }
  }

  /** Enter a case alternative where the scrutinee `v` dies.  A shape mismatch or a
      slot out of range is a fault.

      Whether the cell was unpacked in place or shared, the slots end up the same,
      but for the token, and every value still held reads as it did; the emptied
      cell is parked, which no value is. */
  method Unpack(m: Machine, f: Ref, v: Ref, slot: nat, token: Option<nat>, base: nat, bind: seq<bool>) returns (ok: bool, parked: bool)
    requires Inv(m, None) && m.held[f] > 0 && ValueAt(m.heap, v)
    requires f < |m.heap| && m.heap[f].payload.Activation? && Compiled(m.heap[f].payload, slot, token, base, bind)
    requires slot < |m.heap[f].payload.locals| ==> m.heap[f].payload.locals[slot] == Some(v) || m.held[v] > 0
    modifies m
    ensures ok <==> (var p, q := old(m.heap)[f].payload, old(m.heap)[v].payload;
                     && slot < |p.locals| && base + |bind| <= |p.locals| && IsVariant(q) && |q.fields| == |bind|
                     && (token.Some? ==> token.value < |p.locals|))
    ensures ok ==>
              && Inv(m, None) && m.kont == old(m.kont) && m.held == old(m.held)
              && (var p := old(m.heap)[f].payload;
                  SlotsAre(m.heap, f, p, UnpackedSlots(p.locals, slot, base, bind, old(m.heap)[v].payload.fields, token, if parked then Some(v) else None)))
              && Distributed(old(m.heap)[f].payload, m.heap[f].payload, slot, token, base, bind, old(m.heap)[v].payload.fields,
                             if parked then Some(v) else None)
              && SameTrees(old(m.heap), m.heap, None)
              && (parked <==> && token.Some? && old(m.heap)[f].payload.locals[slot] == Some(v) && old(m.heap)[v].rc == 1
                              && Some(v) !in old(m.heap)[v].payload.fields)
              && (parked ==> v < |m.heap| && IsParked(m.heap[v].payload) && |m.heap[v].payload.fields| == |bind|)
  {
    hide Good, Inv, Den, SameTree, SameTrees, UnpackedSlots, Distributed;
    var p, q := m.heap[f].payload, m.heap[v].payload;
    ok := slot < |p.locals| && base + |bind| <= |p.locals| && IsVariant(q) && |q.fields| == |bind|
          && (token.Some? ==> token.value < |p.locals|);
    parked := false;
    if ok {
      if Dying(m.heap, f, slot, v) {
        UnpackOwned(m, f, v, slot, token, base, bind);
        parked := token.Some?;
        if !parked {
          NoToken(p.locals, slot, base, bind, q.fields, Some(v), None);
        }
      } else {
        UnpackShared(m, f, v, slot, token, base, bind);
      }
      UnpackedDistributes(p, slot, token, base, bind, q.fields, if parked then Some(v) else None);
    }
  }

  lemma GoneSame(h: Store, h': Store, v: Ref)
    requires SameTrees(h, h', Some(v)) && v < |h'| && !IsValue(h'[v].payload)
    ensures SameTrees(h, h', None)
  {
  }

  lemma NoToken(locals: seq<Option<Ref>>, slot: nat, base: nat, bind: seq<bool>, fields: seq<Option<Ref>>, a: Option<Ref>, b: Option<Ref>)
    requires slot < |locals| && |bind| == |fields| && base + |bind| <= |locals|
    ensures UnpackedSlots(locals, slot, base, bind, fields, None, a) == UnpackedSlots(locals, slot, base, bind, fields, None, b)
  {
  }

  // ---- building into a token ----------------------------------------------

  /** The row of a constructor's operands. */
  function Row(fields: seq<Ref>): (r: seq<Option<Ref>>)
    ensures |r| == |fields|
  {
    seq(|fields|, i requires 0 <= i < |fields| => Some(fields[i]))
  }

  lemma {:induction false} RowRefCount(fields: seq<Ref>, self: Ref)
    requires self !in fields
    ensures Present(Row(fields), Some(self)) == multiset(fields)
  {
    if |fields| > 0 {
      RowRefCount(fields[1..], self);
      assert Row(fields)[1..] == Row(fields[1..]);
      assert fields == [fields[0]] + fields[1..];
    }
  }

  /** An operand the token slot does not keep alive: a temporary, or in a slot. */
  ghost predicate OperandKept(m: Machine, f: Ref, token: nat, x: Ref)
    requires f < |m.heap| && m.heap[f].payload.Activation?
    reads m
  {
    ValueAt(m.heap, x) &&
    KeptBy(m.held, m.heap[f].payload.locals, token, x)
  }

  /** The same, of an earlier state. */
  ghost predicate KeptBy(held: multiset<Ref>, locals: seq<Option<Ref>>, token: nat, x: Ref) {
    x in held || exists l :: 0 <= l < |locals| && l != token && locals[l] == Some(x)
  }

  /** In every state of the machine: a cell a token slot names has no field left, and
      nothing a program reads names it, neither a value slot nor a value's field. */
  lemma TokensAreEmptied(h: Store, kont: seq<KFrame>, held: multiset<Ref>, f: Ref, t: nat, c: Ref)
    requires Good(h, kont, held, None) && f < |h| && h[f].payload.Activation? && TokenSlot(h[f].payload, t)
    requires h[f].payload.locals[t] == Some(c)
    ensures c < |h| && h[c].payload.Node? && forall i :: 0 <= i < |h[c].payload.fields| ==> h[c].payload.fields[i].None?
    ensures forall g, l: nat :: 0 <= g < |h| && h[g].payload.Activation? && ValueSlot(h[g].payload, l) ==> h[g].payload.locals[l] != Some(c)
    ensures forall y :: 0 <= y < |h| ==> !IsChild(h[y].payload, c)
  {
    hide Exact, SegOk, Intact, SegRefs, SegBounds;
    assert PayloadOk(h, h[f].payload);
    assert SlotOk(h, h[f].payload.locals[t], h[f].payload.tokens[t]);
    assert PayloadOk(h, h[c].payload);
    forall g, l: nat | 0 <= g < |h| && h[g].payload.Activation? && ValueSlot(h[g].payload, l)
      ensures h[g].payload.locals[l] != Some(c)
    {
      assert PayloadOk(h, h[g].payload);
      assert SlotOk(h, h[g].payload.locals[l], h[g].payload.tokens[l]);
    }
    forall y | 0 <= y < |h|
      ensures !IsChild(h[y].payload, c)
    {
      assert PayloadOk(h, h[y].payload);
    }
  }

  lemma KeptCounted(m: Machine, f: Ref, token: nat, x: Ref)
    requires Inv(m, None) && f < |m.heap| && m.heap[f].payload.Activation? && OperandKept(m, f, token, x)
    ensures x < |m.heap| && m.heap[x].rc > 0
  {
    hide Good;
    if x in m.held {
      HeldCounted(m.heap, m.kont, m.held, x);
    } else {
      var l :| 0 <= l < |m.heap[f].payload.locals| && l != token && m.heap[f].payload.locals[l] == Some(x);
      BoxInSlot(m.heap, m.kont, m.held, f, l);
    }
  }

  lemma KeptStill(held: multiset<Ref>, locals: seq<Option<Ref>>, token: nat, x: Ref)
    requires token < |locals| && KeptBy(held, locals, token, x)
    ensures KeptBy(held, locals[token := None], token, x)
  {
    if x !in held {
      var l :| 0 <= l < |locals| && l != token && locals[l] == Some(x);
      assert locals[token := None][l] == Some(x);
    }
  }

  lemma NotTheCell(m: Machine, f: Ref, x: Ref, v: Ref, h: Store, held: multiset<Ref>, token: nat)
    requires Inv(m, None) && f < |m.heap| && m.heap[f].payload.Activation? && m.held == held + multiset{v}
    requires v < |m.heap| && m.heap[v].rc == 1
    requires KeptBy(held, m.heap[f].payload.locals, token, x)
    ensures x != v
  {
    hide Good;
    GoodOf(m);
    if x in held {
      if x == v {
        assert m.held[v] >= 2;
        TwiceHeld(m.heap, m.kont, m.held, v);
      }
    } else {
      var l :| 0 <= l < |m.heap[f].payload.locals| && l != token && m.heap[f].payload.locals[l] == Some(x);
      NoSlotHas(m.heap, m.kont, m.held, f, l, v);
    }
  }

  lemma TwiceHeld(h: Store, kont: seq<KFrame>, held: multiset<Ref>, v: Ref)
    requires Good(h, kont, held, None) && held[v] >= 2 && v < |h|
    ensures h[v].rc >= 2
  {
    hide AllRefs, AllBounds, Kinded, SegOk, Intact, SegRefs, SegBounds;
    assert h[v].rc == (AllRefs(h) + (SegRefs(kont) + held))[v];
  }

  lemma HollowOwnsNothing(v: Ref, p: Payload)
    requires Hollow(p)
    ensures Refs(v, p) == multiset{}
  {
    NoneOwnsNothing(p.fields, Some(v));
  }

  lemma {:induction false} NoneOwnsNothing(row: seq<Option<Ref>>, skip: Option<Ref>)
    requires forall i :: 0 <= i < |row| ==> row[i].None?
    ensures Present(row, skip) == multiset{}
  {
    if |row| > 0 {
      NoneOwnsNothing(row[1..], skip);
    }
  }

  /** The reference on each operand the new constructor takes. */
  method RetainOperands(m: Machine, fields: seq<Ref>)
    requires Inv(m, None) && forall j :: 0 <= j < |fields| ==> fields[j] < |m.heap| && m.heap[fields[j]].rc > 0
    modifies m
    ensures Inv(m, None) && m.kont == old(m.kont) && m.held == old(m.held) + multiset(fields)
    ensures SameButCounts(old(m.heap), m.heap)
  {
    hide Good;
    RetainAll(m, fields);
  }

  /** Two heaps that differ, as far as payloads go, only in an object no value has
      for a child (or that is new) agree on every other tree. */
  lemma DifferOnlyIn(h: Store, h': Store, x: Ref, kont: seq<KFrame>, held: multiset<Ref>)
    requires Good(h, kont, held, None) && |h| <= |h'| && (x < |h| ==> Unreferenced(h, x)) && |h'| <= (if x < |h| then |h| else x + 1)
    requires x <= |h|
    requires forall y :: 0 <= y < |h| && y != x ==> h'[y].payload == h[y].payload
    ensures SameTrees(h, h', Some(x))
  {
    hide Exact, Kinded, SegOk, Intact, SegRefs, SegBounds, Refs, Den;
    forall y: Ref | y < |h'| && IsValue(h'[y].payload) && Some(y) != Some(x)
      ensures y < |h| && h'[y].payload == h[y].payload
      ensures forall c: Ref :: IsChild(h'[y].payload, c) ==> c < |h'| && IsValue(h'[c].payload) && Some(c) != Some(x)
    {
      forall c: Ref | IsChild(h'[y].payload, c)
        ensures ValueAt(h', c) && c != x
      {
        ChildAlive(h, kont, held, y, c);
      }
    }
    assert Closed(h, h', Some(x));
    ClosedSame(h, h', Some(x));
  }

  /** The tree a constructor builds from its operands. */
  function Built(h: Store, ty: nat, tag: nat, fields: seq<Ref>, n: nat): Tree {
    if n == 0 then Cut
    else Branch(Variant(ty, tag), seq(|fields|, i requires 0 <= i < |fields| => Den(h, Some(fields[i]), n - 1)))
  }

  ghost predicate Builds(h: Store, h': Store, x: Ref, ty: nat, tag: nat, fields: seq<Ref>) {
    forall n: nat :: Den(h', Some(x), n) == Built(h, ty, tag, fields, n)
  }

  lemma BuildsTree(h: Store, h': Store, x: Ref, ty: nat, tag: nat, fields: seq<Ref>)
    requires x < |h'| && h'[x].payload == Node(Variant(ty, tag), Row(fields)) && SameTrees(h, h', Some(x))
    requires forall j :: 0 <= j < |fields| ==> fields[j] != x && ValueAt(h', fields[j])
    ensures Builds(h, h', x, ty, tag, fields)
  {
    forall n: nat
      ensures Den(h', Some(x), n) == Built(h, ty, tag, fields, n)
    {
      forall i | 0 <= i < |fields| && n > 0
        ensures Den(h', Row(fields)[i], n - 1) == Den(h, Some(fields[i]), n - 1)
      {
        assert ValueAt(h', fields[i]);
        assert SameTree(h, h', fields[i]);
      }
    }
  }

  lemma RowIsOk(h: Store, ty: nat, tag: nat, fields: seq<Ref>)
    requires forall j :: 0 <= j < |fields| ==> ValueAt(h, fields[j])
    ensures PayloadOk(h, Node(Variant(ty, tag), Row(fields)))
  {
    forall j | 0 <= j < |Row(fields)| && Row(fields)[j].Some?
      ensures ValueAt(h, Row(fields)[j].value)
    {
      assert ValueAt(h, fields[j]);
    }
  }

  lemma ValuesKeep(h: Store, h': Store, fields: seq<Ref>)
    requires forall j :: 0 <= j < |fields| ==> ValueAt(h, fields[j])
    requires |h| <= |h'| && forall i :: 0 <= i < |h| ==> IsValue(h[i].payload) ==> IsValue(h'[i].payload)
    ensures forall j :: 0 <= j < |fields| ==> ValueAt(h', fields[j])
  {
  }

  /** A parked cell, held once, in hand. */
  ghost predicate ParkedInHand(m: Machine, v: Ref)
    reads m
  {
    m.held[v] > 0 && v < |m.heap| && m.heap[v].rc == 1 && IsParked(m.heap[v].payload)
  }

  /** A parked cell has no field left. */
  lemma ParkedEmpty(m: Machine, v: Ref)
    requires Inv(m, None) && v < |m.heap| && IsParked(m.heap[v].payload)
    ensures var fields := m.heap[v].payload.fields; forall i :: 0 <= i < |fields| ==> fields[i].None?
    ensures Refs(v, m.heap[v].payload) == multiset{}
  {
    hide Exact, SegOk, Intact, SegRefs, SegBounds;
    assert PayloadOk(m.heap, m.heap[v].payload);
    NoneOwnsNothing(m.heap[v].payload.fields, Some(v));
  }

  /** Whether a cell still has a field, which its reuse would leak. */
  method HasField(fields: seq<Option<Ref>>) returns (live: bool)
    ensures live <==> exists i :: 0 <= i < |fields| && fields[i].Some?
  {
    for i := 0 to |fields|
      invariant forall j :: 0 <= j < i ==> fields[j].None?
    {
      if fields[i].Some? {
        return true;
      }
    }
    return false;
  }

  /** Build a constructor into a parked cell nobody else holds.  A field left in it is a
      fault, and there is none. */
  method Refill(m: Machine, v: Ref, ty: nat, tag: nat, fields: seq<Ref>) returns (fault: bool)
    requires Inv(m, None) && ParkedInHand(m, v) && |m.heap[v].payload.fields| == |fields|
    requires v !in fields && forall j :: 0 <= j < |fields| ==> ValueAt(m.heap, fields[j]) && m.heap[fields[j]].rc > 0
    modifies m
    ensures !fault
    ensures Inv(m, None) && m.kont == old(m.kont) && m.held == old(m.held)
    ensures v < |m.heap| == |old(m.heap)| && m.heap[v].payload == Node(Variant(ty, tag), Row(fields))
    ensures forall y :: 0 <= y < |m.heap| && y != v ==> m.heap[y].payload == old(m.heap)[y].payload
    ensures SameTrees(old(m.heap), m.heap, Some(v)) && Builds(old(m.heap), m.heap, v, ty, tag, fields)
  {
    hide Good, Inv, Den, SameTree, SameTrees, Row;
    ghost var h, held := m.heap, m.held;
    ParkedEmpty(m, v);
    fault := HasField(m.heap[v].payload.fields);
    if fault {
      return;
    }
    GoodOf(m);
    InHandAlone(h, m.kont, held, v);
    RetainOperands(m, fields);
    StillAlone(h, m, held, v, fields);
    ValuesKeep(h, m.heap, fields);
    WriteCell(m, v, ty, tag, fields);
    assert m.held == held;
    DifferOnlyIn(h, m.heap, v, m.kont, held);
    assert forall j :: 0 <= j < |fields| ==> fields[j] in fields;
    BuildsTree(h, m.heap, v, ty, tag, fields);
  }

  /** The cell takes over the operands' references. */
  method WriteCell(m: Machine, v: Ref, ty: nat, tag: nat, fields: seq<Ref>)
    requires Inv(m, None) && ParkedInHand(m, v) && v !in fields && multiset(fields) <= m.held
    requires forall j :: 0 <= j < |fields| ==> ValueAt(m.heap, fields[j])
    modifies m
    ensures Inv(m, None) && m.kont == old(m.kont) && m.held == old(m.held) - multiset(fields)
    ensures m.heap == old(m.heap)[v := old(m.heap)[v].(payload := Node(Variant(ty, tag), Row(fields)))]
    ensures forall j :: 0 <= j < |fields| ==> ValueAt(m.heap, fields[j])
  {
    hide Good, PayloadOk, Refs, Row;
    var q := Node(Variant(ty, tag), Row(fields));
    ghost var h := m.heap;
    ghost var h' := h[v := h[v].(payload := q)];
    ValuesBeside(h, h', v, fields);
    RowIsOk(h', ty, tag, fields);
    CellRefs(v, ty, tag, fields);
    ParkedEmpty(m, v);
    AloneGood(m.heap, m.kont, m.held, v, q);
    m.heap := m.heap[v := m.heap[v].(payload := q)];
    m.held := m.held - Refs(v, q);
  }

  /** Retaining operands that are not the cell leaves it held once. */
  lemma StillAlone(h: Store, m: Machine, held: multiset<Ref>, v: Ref, fields: seq<Ref>)
    requires Good(h, m.kont, held, None) && Inv(m, None) && m.held == held + multiset(fields) && SameButCounts(h, m.heap)
    requires held[v] > 0 && v < |h| && h[v].rc == 1 && v !in fields
    ensures v < |m.heap| && m.heap[v].rc == 1
  {
    hide AllRefs, AllBounds, Kinded, SegOk, Intact, SegRefs, SegBounds;
    assert h[v].rc == (AllRefs(h) + (SegRefs(m.kont) + held))[v];
    assert m.heap[v].rc == (AllRefs(m.heap) + (SegRefs(m.kont) + m.held))[v];
    SamePayloadRefs(h, m.heap);
  }

  lemma ValuesBeside(h: Store, h': Store, v: Ref, fields: seq<Ref>)
    requires v !in fields && forall j :: 0 <= j < |fields| ==> ValueAt(h, fields[j])
    requires |h| == |h'| && forall y :: 0 <= y < |h| && y != v ==> h'[y] == h[y]
    ensures forall j :: 0 <= j < |fields| ==> ValueAt(h', fields[j])
  {
    assert forall j :: 0 <= j < |fields| ==> fields[j] in fields;
  }

  lemma CellRefs(v: Ref, ty: nat, tag: nat, fields: seq<Ref>)
    requires v !in fields
    ensures Refs(v, Node(Variant(ty, tag), Row(fields))) == multiset(fields)
  {
    RowRefCount(fields, v);
  }

  /** Build a constructor in a fresh cell. */
  method BuildFresh(m: Machine, ty: nat, tag: nat, fields: seq<Ref>) returns (x: Ref)
    requires Inv(m, None) && forall j :: 0 <= j < |fields| ==> ValueAt(m.heap, fields[j]) && m.heap[fields[j]].rc > 0
    modifies m
    ensures Inv(m, None) && m.kont == old(m.kont) && m.held == old(m.held) + multiset{x}
    ensures x == |old(m.heap)| && |m.heap| == x + 1 && m.heap[x].payload == Node(Variant(ty, tag), Row(fields))
    ensures forall y :: 0 <= y < x ==> m.heap[y].payload == old(m.heap)[y].payload
    ensures SameTrees(old(m.heap), m.heap, Some(x)) && Builds(old(m.heap), m.heap, x, ty, tag, fields)
  {
    hide Good, Den, SameTree, SameTrees, PayloadOk, Refs;
    ghost var h, held := m.heap, m.held;
    RetainOperands(m, fields);
    ValuesKeep(h, m.heap, fields);
    RowIsOk(m.heap, ty, tag, fields);
    assert |m.heap| !in fields;
    CellRefs(|m.heap|, ty, tag, fields);
    ghost var h1 := m.heap;
    x := New(m, Node(Variant(ty, tag), Row(fields)), None);
    assert m.held == held + multiset{x};
    DifferOnlyIn(h, m.heap, x, m.kont, held);
    ValuesKeep(h1, m.heap, fields);
    assert forall j :: 0 <= j < |fields| ==> fields[j] in fields;
    BuildsTree(h, m.heap, x, ty, tag, fields);
  }

  /** A constructor that may reuse the cell its token slot names.

      The result reads as the constructor applied to its operands, and every other
      value as before, whether the cell was reused or a fresh one built.  A reused
      cell never has a field left in it: that fault is not reached. */
  method VariantAt(m: Machine, f: Ref, token: nat, ty: nat, tag: nat, fields: seq<Ref>) returns (x: Ref, fault: bool)
    requires Inv(m, None) && m.held[f] > 0 && f < |m.heap| && m.heap[f].payload.Activation? && TokenSlot(m.heap[f].payload, token)
    requires forall j :: 0 <= j < |fields| ==> OperandKept(m, f, token, fields[j])
    modifies m
    ensures !fault
    ensures Inv(m, None) && m.kont == old(m.kont) && m.held == old(m.held) + multiset{x}
    ensures var p := old(m.heap)[f].payload; SlotsAre(m.heap, f, p, p.locals[token := None])
    ensures SameTrees(old(m.heap), m.heap, Some(x)) && Builds(old(m.heap), m.heap, x, ty, tag, fields)
    ensures x < |m.heap| && m.heap[x].payload == Node(Variant(ty, tag), Row(fields))
  {
    hide Good, Inv, Den, SameTree, SameTrees, Builds;
    ghost var h, held := m.heap, m.held;
    fault := false;
    var cell := m.heap[f].payload.locals[token];
    if cell.None? {
      OperandsCounted(m, f, token, fields);
      EmptyStays(m.heap[f].payload.locals, token);
      x := BuildFresh(m, ty, tag, fields);
    } else {
      var v := cell.value;
      BoxInSlotM(m, f, token);
      x, fault := IntoCell(m, f, token, v, ty, tag, fields);
    }
  }

  lemma EmptyStays(locals: seq<Option<Ref>>, token: nat)
    requires token < |locals| && locals[token].None?
    ensures locals[token := None] == locals
  {
  }

  lemma OperandsCounted(m: Machine, f: Ref, token: nat, fields: seq<Ref>)
    requires Inv(m, None) && f < |m.heap| && m.heap[f].payload.Activation?
    requires forall j :: 0 <= j < |fields| ==> OperandKept(m, f, token, fields[j])
    ensures forall j :: 0 <= j < |fields| ==> ValueAt(m.heap, fields[j]) && m.heap[fields[j]].rc > 0
  {
    hide Inv;
    forall j | 0 <= j < |fields|
      ensures ValueAt(m.heap, fields[j]) && m.heap[fields[j]].rc > 0
    {
      assert OperandKept(m, f, token, fields[j]);
      KeptCounted(m, f, token, fields[j]);
    }
  }

  /** Take the token's cell: build into it when it fits and nobody else holds it (a
      copied activation may), and drop it for a fresh cell otherwise. */
  method IntoCell(m: Machine, f: Ref, token: nat, v: Ref, ty: nat, tag: nat, fields: seq<Ref>) returns (x: Ref, fault: bool)
    requires Inv(m, None) && m.held[f] > 0 && InToken(m.heap, f, token, v)
    requires forall j :: 0 <= j < |fields| ==> OperandKept(m, f, token, fields[j])
    modifies m
    ensures !fault
    ensures Inv(m, None) && m.kont == old(m.kont) && m.held == old(m.held) + multiset{x}
    ensures var p := old(m.heap)[f].payload; SlotsAre(m.heap, f, p, p.locals[token := None])
    ensures SameTrees(old(m.heap), m.heap, Some(x)) && Builds(old(m.heap), m.heap, x, ty, tag, fields)
    ensures x < |m.heap| && m.heap[x].payload == Node(Variant(ty, tag), Row(fields))
  {
    hide Good, Inv, Den, SameTree, SameTrees, Builds, OperandKept;
    ghost var h, held := m.heap, m.held;
    fault := false;
    BoxInSlotM(m, f, token);
    if m.heap[v].rc == 1 && |m.heap[v].payload.fields| == |fields| {
      TakeCell(m, f, token, v, fields);
      ghost var h1 := m.heap;
      fault := Refill(m, v, ty, tag, fields);
      x := v;
      SameTreesCompose(h, h1, m.heap, Some(v));
      BuildsSame(h, h1, m.heap, x, ty, tag, fields, v);
    } else {
      DropCell(m, f, token, v, fields);
      ghost var h1 := m.heap;
      x := BuildFresh(m, ty, tag, fields);
      assert x == |h1|;
      SameTreesWeaken(h, h1, x);
      SameTreesCompose(h, h1, m.heap, Some(x));
      BuildsSame(h, h1, m.heap, x, ty, tag, fields, x);
    }
  }

  /** A token slot of `f` holds the cell `v`. */
  ghost predicate InToken(h: Store, f: Ref, token: nat, v: Ref) {
    && f < |h| && h[f].payload.Activation? && TokenSlot(h[f].payload, token)
    && h[f].payload.locals[token] == Some(v)
  }

  /** The cell comes out of the token slot into our hands. */
  method TakeCell(m: Machine, f: Ref, token: nat, v: Ref, ghost fields: seq<Ref>)
    requires Inv(m, None) && m.held[f] > 0 && InToken(m.heap, f, token, v) && v < |m.heap| && m.heap[v].rc == 1
    requires forall j :: 0 <= j < |fields| ==> OperandKept(m, f, token, fields[j])
    modifies m
    ensures Inv(m, None) && m.kont == old(m.kont) && m.held == old(m.held) + multiset{v}
    ensures var p := old(m.heap)[f].payload; SlotsAre(m.heap, f, p, p.locals[token := None])
    ensures ParkedInHand(m, v) && m.heap[v].payload == old(m.heap)[v].payload
    ensures v !in fields && v != f && forall j :: 0 <= j < |fields| ==> ValueAt(m.heap, fields[j]) && m.heap[fields[j]].rc > 0
    ensures SameTrees(old(m.heap), m.heap, Some(v))
  {
    hide Good, Inv, Den, SameTree, SameTrees;
    ghost var h, held := m.heap, m.held;
    BoxInSlotM(m, f, token);
    OperandsCounted(m, f, token, fields);
    ghost var p := h[f].payload;
    assert forall j :: 0 <= j < |fields| ==> KeptBy(held, p.locals, token, fields[j]) && fields[j] != f by {
      assert forall j :: 0 <= j < |fields| ==> OperandKept(m, f, token, fields[j]);
    }
    var was := PutSlot(m, f, token, None);
    assert m.held == held + multiset{v};
    EmptiedSlot(h, m.heap, f, m, v);
    forall j | 0 <= j < |fields|
      ensures fields[j] != v && fields[j] != f
    {
      KeptStill(held, p.locals, token, fields[j]);
      NotTheCell(m, f, fields[j], v, h, held, token);
    }
  }

  /** The cell is no use: its reference goes. */
  method DropCell(m: Machine, f: Ref, token: nat, v: Ref, ghost fields: seq<Ref>)
    requires Inv(m, None) && m.held[f] > 0 && InToken(m.heap, f, token, v)
    requires forall j :: 0 <= j < |fields| ==> OperandKept(m, f, token, fields[j])
    modifies m
    ensures Inv(m, None) && m.kont == old(m.kont) && m.held == old(m.held)
    ensures var p := old(m.heap)[f].payload; SlotsAre(m.heap, f, p, p.locals[token := None])
    ensures forall j :: 0 <= j < |fields| ==> ValueAt(m.heap, fields[j]) && m.heap[fields[j]].rc > 0
    ensures SameTrees(old(m.heap), m.heap, None)
  {
    hide Good, Inv, Den, SameTree, SameTrees;
    ghost var h, p := m.heap, m.heap[f].payload;
    forall j | 0 <= j < |fields|
      ensures KeptAsValue(m.held, p, token, fields[j]) && fields[j] != f && ValueAt(h, fields[j])
    {
      assert OperandKept(m, f, token, fields[j]);
      AsValue(m, f, token, fields[j]);
    }
    ClearSlot(m, f, token);
    forall j | 0 <= j < |fields|
      ensures ValueAt(m.heap, fields[j]) && m.heap[fields[j]].rc > 0
    {
      OperandStays(m, h, f, p, token, fields[j]);
    }
  }

  /** Kept in hand or in a value slot. */
  ghost predicate KeptAsValue(held: multiset<Ref>, p: Payload, token: nat, x: Ref)
    requires p.Activation?
  {
    x in held || exists l :: 0 <= l < |p.locals| && l != token && p.locals[l] == Some(x) && ValueSlot(p, l)
  }

  lemma AsValue(m: Machine, f: Ref, token: nat, x: Ref)
    requires Inv(m, None) && f < |m.heap| && m.heap[f].payload.Activation? && OperandKept(m, f, token, x)
    ensures KeptAsValue(m.held, m.heap[f].payload, token, x) && x != f
  {
    hide Good;
    var p := m.heap[f].payload;
    if x !in m.held {
      var l :| 0 <= l < |p.locals| && l != token && p.locals[l] == Some(x);
      BoxInSlotM(m, f, l);
      assert ValueSlot(p, l);
    }
  }

  lemma OperandStays(m: Machine, h: Store, f: Ref, p: Payload, token: nat, x: Ref)
    requires Inv(m, None) && f < |m.heap| && p.Activation? && token < |p.locals| && SlotsAre(m.heap, f, p, p.locals[token := None])
    requires KeptAsValue(m.held, p, token, x) && ValueAt(h, x) && StillHeld(h, m.heap, m.held, f) && x != f
    ensures ValueAt(m.heap, x) && m.heap[x].rc > 0
  {
    hide Good;
    if x in m.held {
      HeldCounted(m.heap, m.kont, m.held, x);
    } else {
      var l :| 0 <= l < |p.locals| && l != token && p.locals[l] == Some(x) && ValueSlot(p, l);
      assert m.heap[f].payload.locals[l] == Some(x);
      BoxInSlot(m.heap, m.kont, m.held, f, l);
    }
  }

  lemma SameTreesWeaken(h: Store, h': Store, x: Ref)
    requires SameTrees(h, h', None)
    ensures SameTrees(h, h', Some(x))
  {
  }

  lemma BuildsSame(h: Store, h1: Store, h2: Store, x: Ref, ty: nat, tag: nat, fields: seq<Ref>, v: Ref)
    requires SameTrees(h, h1, Some(v)) && Builds(h1, h2, x, ty, tag, fields)
    requires forall j :: 0 <= j < |fields| ==> ValueAt(h1, fields[j]) && fields[j] != v
    ensures Builds(h, h2, x, ty, tag, fields)
  {
    forall n: nat
      ensures Den(h2, Some(x), n) == Built(h, ty, tag, fields, n)
    {
      forall i | 0 <= i < |fields| && n > 0
        ensures Den(h1, Some(fields[i]), n - 1) == Den(h, Some(fields[i]), n - 1)
      {
        assert SameTree(h, h1, fields[i]);
      }
    }
  }
}
