/** The counted objects of the native runtime and what an exact count is.

    Values, activations and captured slices are all reference counted.  The heap
    is a sequence of objects; a reference is an index into it.  A freed object
    stays behind as `Freed`, so a dangling reference is visible. */
module Objects {
  import opened Common

  type Ref = nat

  datatype ResumeUse = Never | Captured

  datatype Clause = Clause(effect: Option<nat>, op: nat, resume: ResumeUse, fun: Ref)

  /** A frame of the reified continuation stack. */
  datatype KFrame =
    | KRet(frame: Ref, slot: nat, cont: nat)
    | KPrompt(clauses: seq<Clause>, els: Ref)
    | KDefer(cleanup: Ref)
    | KThunkRet(saved: Ref)
    | KAfterClause(res: Ref)
    | KCleanups(cleanups: seq<Ref>)

  datatype Shape =
    | Tuple
    | Vec
    | Struct(name: nat)
    | Variant(ty: nat, tag: nat)
      /** A variant's cell whose fields were moved out and that waits, in a token slot,
          for the next constructor.  (The cell is a variant's still; only the model
          tells the two apart.) */
    | Parked(ty: nat, tag: nat)
    | Clos(code: nat)
      /** A built-in or foreign function, by how many operands it takes; its fields are
          those it has been given. */
    | Builtin(id: nat, arity: nat)
    | Extern(idx: nat, arity: nat)

  datatype Payload =
    | Freed
    | Scalar(value: int)
      /** Children in an array; a child equal to the object itself is a weak edge. */
    | Node(shape: Shape, fields: seq<Option<Ref>>)
      /** A tensor over its buffer, or a thunk over its closure. */
    | Link(target: Ref)
    | Resumption(slice: Ref)
    | Op(effect: Option<nat>, op: nat)
      /** The slots marked in `tokens` are for reuse tokens, the others for values. */
    | Activation(clos: Option<Ref>, locals: seq<Option<Ref>>, tokens: seq<bool>)
      /** A captured slice; `None` once its frames have been moved out. */
    | Slice(seg: Option<seq<KFrame>>, used: bool)

  /** `nbound` counts the clause boundaries among the owners of a slice. */
  datatype Obj = Obj(rc: nat, nbound: nat, payload: Payload)

  type Store = seq<Obj>

  predicate IsCell(p: Payload) {
    !p.Freed? && !p.Activation? && !p.Slice?
  }

  predicate IsParked(p: Payload) {
    p.Node? && p.shape.Parked?
  }

  /** A cell a program can read. */
  predicate IsValue(p: Payload) {
    IsCell(p) && !IsParked(p)
  }

  /** The children of a value, weak edges included. */
  ghost predicate IsChild(p: Payload, c: Ref) {
    match p
    case Node(_, fields) => Some(c) in fields
    case Link(target) => target == c
    case _ => false
  }

  // ---- the references an object owns --------------------------------------

  /** The references in `fields`, leaving out the weak edge `skip`. */
  function Present(fields: seq<Option<Ref>>, skip: Option<Ref>): multiset<Ref> {
    if |fields| == 0 then multiset{}
    else
      (if fields[0].Some? && fields[0] != skip then multiset{fields[0].value} else multiset{})
      + Present(fields[1..], skip)
  }

  function Funs(clauses: seq<Clause>): multiset<Ref> {
    if |clauses| == 0 then multiset{} else multiset{clauses[0].fun} + Funs(clauses[1..])
  }

  function KRefs(kf: KFrame): multiset<Ref> {
    match kf
    case KRet(frame, _, _) => multiset{frame}
    case KPrompt(clauses, els) => Funs(clauses) + multiset{els}
    case KDefer(cleanup) => multiset{cleanup}
    case KThunkRet(saved) => multiset{saved}
    case KAfterClause(res) => multiset{res}
    case KCleanups(cleanups) => multiset(cleanups)
  }

  function KBounds(kf: KFrame): multiset<Ref> {
    if kf.KAfterClause? then multiset{kf.res} else multiset{}
  }

  function SegRefs(seg: seq<KFrame>): multiset<Ref> {
    if |seg| == 0 then multiset{} else KRefs(seg[0]) + SegRefs(seg[1..])
  }

  function SegBounds(seg: seq<KFrame>): multiset<Ref> {
    if |seg| == 0 then multiset{} else KBounds(seg[0]) + SegBounds(seg[1..])
  }

  function Refs(self: Ref, p: Payload): multiset<Ref> {
    match p
    case Node(_, fields) => Present(fields, Some(self))
    case Link(target) => multiset{target}
    case Resumption(slice) => multiset{slice}
    case Activation(clos, locals, _) => Present([clos], None) + Present(locals, None)
    case Slice(Some(seg), _) => SegRefs(seg)
    case _ => multiset{}
  }

  lemma {:induction false} PresentCounts(row: seq<Option<Ref>>, skip: Option<Ref>, c: Ref)
    ensures Present(row, skip)[c] == if Some(c) == skip then 0 else multiset(row)[Some(c)]
  {
    if |row| > 0 {
      var rest := row[1..];
      PresentCounts(rest, skip, c);
      OneMore(row, Some(c));
      assert Present(row, skip)[c] == (if row[0] == Some(c) && row[0] != skip then 1 else 0) + Present(rest, skip)[c];
    }
  }

  lemma OneMore(row: seq<Option<Ref>>, x: Option<Ref>)
    requires |row| > 0
    ensures multiset(row)[x] == (if row[0] == x then 1 else 0) + multiset(row[1..])[x]
  {
    assert row == [row[0]] + row[1..];
  }

  /** A value's references are its fields, each as often as it is one, but for itself. */
  lemma SelfIsWeak(self: Ref, shape: Shape, fields: seq<Option<Ref>>, c: Ref)
    ensures Refs(self, Node(shape, fields))[c] == if c == self then 0 else multiset(fields)[Some(c)]
  {
    PresentCounts(fields, Some(self), c);
  }

  /** An activation's are its closure and what is in its slots. */
  lemma SlotsCount(self: Ref, clos: Option<Ref>, locals: seq<Option<Ref>>, tokens: seq<bool>, c: Ref)
    ensures Refs(self, Activation(clos, locals, tokens))[c] == multiset([clos])[Some(c)] + multiset(locals)[Some(c)]
  {
    PresentCounts([clos], None, c);
    PresentCounts(locals, None, c);
  }

  function Bounds(p: Payload): multiset<Ref> {
    match p
    case Slice(Some(seg), _) => SegBounds(seg)
    case _ => multiset{}
  }

  /** Every counted reference held by an object of the heap. */
  function AllRefs(h: Store): multiset<Ref> {
    if |h| == 0 then multiset{}
    else AllRefs(h[..|h| - 1]) + Refs(|h| - 1, h[|h| - 1].payload)
  }

  /** Every boundary frame inside a captured slice. */
  function AllBounds(h: Store): multiset<Ref> {
    if |h| == 0 then multiset{}
    else AllBounds(h[..|h| - 1]) + Bounds(h[|h| - 1].payload)
  }

  // ---- exact counts -------------------------------------------------------

  ghost predicate NoDup(s: seq<Ref>) {
    forall i, j :: 0 <= i < j < |s| ==> s[i] != s[j]
  }

  /** Every count is the number of references: those inside objects, and `roots`
      (the continuation stack, the registers, the temporaries).  Nothing that is
      referenced has been freed, and the objects whose count is zero are those
      waiting in `dead` to be destroyed. */
  ghost predicate Exact(h: Store, roots: multiset<Ref>, bounds: multiset<Ref>, dead: seq<Ref>) {
    Tallied(h, AllRefs(h) + roots, AllBounds(h) + bounds, dead)
  }

  ghost predicate Tallied(h: Store, total: multiset<Ref>, btotal: multiset<Ref>, dead: seq<Ref>) {
    && (forall i :: 0 <= i < |h| ==> h[i].rc == total[i])
    && (forall i :: 0 <= i < |h| ==> h[i].nbound == btotal[i])
    && (forall x: Ref :: total[x] > 0 ==> x < |h| && !h[x].payload.Freed?)
    && (forall i :: 0 <= i < |h| && h[i].rc == 0 && !h[i].payload.Freed? ==> i in dead)
    && (forall x :: x in dead ==> x < |h| && h[x].rc == 0 && !h[x].payload.Freed?)
    && NoDup(dead)
  }

  lemma {:induction false} RefsUpdate(h: Store, i: Ref, o: Obj)
    requires i < |h|
    ensures forall x: Ref :: AllRefs(h[i := o])[x] + Refs(i, h[i].payload)[x] == AllRefs(h)[x] + Refs(i, o.payload)[x]
    ensures forall x: Ref :: AllBounds(h[i := o])[x] + Bounds(h[i].payload)[x] == AllBounds(h)[x] + Bounds(o.payload)[x]
  {
    hide Refs, Bounds;
    var n := |h| - 1;
    if i < n {
      RefsUpdate(h[..n], i, o);
      assert h[i := o][..n] == h[..n][i := o];
    } else {
      assert h[i := o][..n] == h[..n];
    }
  }

  lemma {:induction false} SamePayloadRefs(h: Store, h': Store)
    requires |h| == |h'| && forall i :: 0 <= i < |h| ==> h'[i].payload == h[i].payload
    ensures AllRefs(h') == AllRefs(h) && AllBounds(h') == AllBounds(h)
    decreases |h|
  {
    hide Refs, Bounds;
    if |h| > 0 {
      SamePayloadRefs(h[..|h| - 1], h'[..|h| - 1]);
    }
  }

  /** A count change alone moves no reference. */
  lemma CountUpdate(h: Store, i: Ref, o: Obj)
    requires i < |h| && o.payload == h[i].payload
    ensures AllRefs(h[i := o]) == AllRefs(h) && AllBounds(h[i := o]) == AllBounds(h)
  {
    hide AllRefs, AllBounds, Refs, Bounds;
    RefsUpdate(h, i, o);
  }

  lemma RefsAppend(h: Store, o: Obj)
    ensures forall x: Ref :: AllRefs(h + [o])[x] == AllRefs(h)[x] + Refs(|h|, o.payload)[x]
    ensures forall x: Ref :: AllBounds(h + [o])[x] == AllBounds(h)[x] + Bounds(o.payload)[x]
  {
    hide Refs, Bounds;
    assert (h + [o])[..|h|] == h;
  }

  /** An object's own references are among all of them. */
  lemma {:induction false} RefsBelow(h: Store, i: Ref)
    requires i < |h|
    ensures forall x: Ref :: Refs(i, h[i].payload)[x] <= AllRefs(h)[x]
    ensures forall x: Ref :: Bounds(h[i].payload)[x] <= AllBounds(h)[x]
  {
    hide Refs, Bounds;
    var n := |h| - 1;
    if i < n {
      RefsBelow(h[..n], i);
    }
  }

  lemma {:induction false} SegRefsConcat(a: seq<KFrame>, b: seq<KFrame>)
    ensures forall x: Ref :: SegRefs(a + b)[x] == SegRefs(a)[x] + SegRefs(b)[x]
    ensures forall x: Ref :: SegBounds(a + b)[x] == SegBounds(a)[x] + SegBounds(b)[x]
  {
    if |a| == 0 {
      assert a + b == b;
    } else {
      SegRefsConcat(a[1..], b);
      assert (a + b)[1..] == a[1..] + b;
    }
  }

  lemma {:induction false} PresentConcat(a: seq<Option<Ref>>, b: seq<Option<Ref>>, skip: Option<Ref>)
    ensures forall x: Ref :: Present(a + b, skip)[x] == Present(a, skip)[x] + Present(b, skip)[x]
  {
    if |a| == 0 {
      assert a + b == b;
    } else {
      PresentConcat(a[1..], b, skip);
      assert (a + b)[1..] == a[1..] + b;
    }
  }

  lemma PresentFirst(a: seq<Option<Ref>>, skip: Option<Ref>)
    requires |a| > 0
    ensures Present(a, skip) == Present([a[0]], skip) + Present(a[1..], skip)
  {
    var one: seq<Option<Ref>> := [a[0]];
    assert one[1..] == [] && Present(one[1..], skip) == multiset{};
  }

  /** What changing one slot does to the references in a row of them. */
  lemma {:induction false} PresentUpdate(a: seq<Option<Ref>>, i: nat, v: Option<Ref>, skip: Option<Ref>)
    requires i < |a|
    ensures forall x: Ref ::
              Present(a[i := v], skip)[x] + Present([a[i]], skip)[x] == Present(a, skip)[x] + Present([v], skip)[x]
  {
    hide Present;
    PresentFirst(a, skip);
    PresentFirst(a[i := v], skip);
    if i == 0 {
      assert a[i := v][1..] == a[1..];
    } else {
      PresentUpdate(a[1..], i - 1, v, skip);
      assert a[i := v][1..] == a[1..][i - 1 := v];
    }
  }

  /** Changing one object's counts (but not whether it is freed). */
  lemma UpdateTally(h: Store, i: Ref, o: Obj, total: multiset<Ref>, btotal: multiset<Ref>,
                    total': multiset<Ref>, btotal': multiset<Ref>, dead: seq<Ref>)
    requires Tallied(h, total, btotal, dead) && i < |h| && h[i].rc > 0
    requires o.payload.Freed? == h[i].payload.Freed?
    requires total'[i] == o.rc && btotal'[i] == o.nbound
    requires forall x: Ref :: x != i ==> total'[x] == total[x] && btotal'[x] == btotal[x]
    ensures Tallied(h[i := o], total', btotal', if o.rc == 0 then dead + [i] else dead)
    ensures i !in dead && !h[i].payload.Freed?
  {
    assert total[i] > 0;
  }

  lemma RootAlive(h: Store, roots: multiset<Ref>, bounds: multiset<Ref>, dead: seq<Ref>, x: Ref)
    requires Exact(h, roots, bounds, dead) && roots[x] > 0
    ensures x < |h| && h[x].rc > 0 && !h[x].payload.Freed?
  {
    hide AllRefs, AllBounds;
    assert (AllRefs(h) + roots)[x] > 0;
  }

  /** Dropping a root reference: the counts stay exact, and an object whose count
      reaches zero joins the dead. */
  lemma DropRoot(h: Store, roots: multiset<Ref>, bounds: multiset<Ref>, dead: seq<Ref>, x: Ref)
    requires Exact(h, roots, bounds, dead) && roots[x] > 0
    ensures x < |h| && h[x].rc > 0
    ensures var h' := h[x := h[x].(rc := h[x].rc - 1)];
            && Exact(h', roots - multiset{x}, bounds, if h[x].rc == 1 then dead + [x] else dead)
            && (h[x].rc == 1 ==> x !in dead && !h[x].payload.Freed?)
  {
    hide AllRefs, AllBounds, Refs, Bounds;
    RootAlive(h, roots, bounds, dead, x);
    var h' := h[x := h[x].(rc := h[x].rc - 1)];
    CountUpdate(h, x, h'[x]);
    UpdateTally(h, x, h'[x], AllRefs(h) + roots, AllBounds(h) + bounds,
                AllRefs(h') + (roots - multiset{x}), AllBounds(h') + bounds, dead);
  }

  /** Dropping a boundary root: it was counted. */
  lemma DropBound(h: Store, roots: multiset<Ref>, bounds: multiset<Ref>, dead: seq<Ref>, r: Ref)
    requires Exact(h, roots, bounds, dead) && bounds[r] > 0 && roots[r] > 0
    ensures r < |h| && h[r].nbound > 0
    ensures Exact(h[r := h[r].(nbound := h[r].nbound - 1)], roots, bounds - multiset{r}, dead)
  {
    hide AllRefs, AllBounds, Refs, Bounds;
    RootAlive(h, roots, bounds, dead, r);
    assert h[r].nbound == (AllBounds(h) + bounds)[r];
    var h' := h[r := h[r].(nbound := h[r].nbound - 1)];
    CountUpdate(h, r, h'[r]);
    UpdateTally(h, r, h'[r], AllRefs(h) + roots, AllBounds(h) + bounds,
                AllRefs(h') + roots, AllBounds(h') + (bounds - multiset{r}), dead);
  }

  /** Taking one more reference on an object that is referenced. */
  lemma AddRoot(h: Store, roots: multiset<Ref>, bounds: multiset<Ref>, dead: seq<Ref>, x: Ref)
    requires Exact(h, roots, bounds, dead) && x < |h| && h[x].rc > 0
    ensures Exact(h[x := h[x].(rc := h[x].rc + 1)], roots + multiset{x}, bounds, dead)
  {
    hide AllRefs, AllBounds, Refs, Bounds;
    var h' := h[x := h[x].(rc := h[x].rc + 1)];
    CountUpdate(h, x, h'[x]);
    UpdateTally(h, x, h'[x], AllRefs(h) + roots, AllBounds(h) + bounds,
                AllRefs(h') + (roots + multiset{x}), AllBounds(h') + bounds, dead);
  }

  /** One more boundary names a slice that is referenced. */
  lemma AddBound(h: Store, roots: multiset<Ref>, bounds: multiset<Ref>, dead: seq<Ref>, x: Ref)
    requires Exact(h, roots, bounds, dead) && x < |h| && h[x].rc > 0
    ensures Exact(h[x := h[x].(nbound := h[x].nbound + 1)], roots, bounds + multiset{x}, dead)
  {
    hide AllRefs, AllBounds, Refs, Bounds;
    var h' := h[x := h[x].(nbound := h[x].nbound + 1)];
    CountUpdate(h, x, h'[x]);
    UpdateTally(h, x, h'[x], AllRefs(h) + roots, AllBounds(h) + bounds,
                AllRefs(h') + roots, AllBounds(h') + (bounds + multiset{x}), dead);
  }

  lemma PopDead(h: Store, roots: multiset<Ref>, bounds: multiset<Ref>, dead: seq<Ref>)
    requires Exact(h, roots, bounds, dead) && |dead| > 0
    ensures var n := |dead| - 1;
            dead[n] !in dead[..n] && Exact(h, roots, bounds, dead[..n] + [dead[n]])
  {
    assert dead == dead[..|dead| - 1] + [dead[|dead| - 1]];
  }

  // ---- freeing ------------------------------------------------------------

  /** The number of objects not freed. */
  function Live(h: Store): nat {
    if |h| == 0 then 0
    else Live(h[..|h| - 1]) + (if h[|h| - 1].payload.Freed? then 0 else 1)
  }

  lemma {:induction false} LiveShrinks(h: Store, h': Store)
    requires |h| == |h'|
    requires forall i :: 0 <= i < |h| ==> h'[i].payload == h[i].payload || h'[i].payload.Freed?
    ensures Live(h') <= Live(h)
    ensures (exists i :: 0 <= i < |h| && !h[i].payload.Freed? && h'[i].payload.Freed?) ==> Live(h') < Live(h)
  {
    if |h| > 0 {
      LiveShrinks(h[..|h| - 1], h'[..|h| - 1]);
      if i :| 0 <= i < |h| && !h[i].payload.Freed? && h'[i].payload.Freed? {
        if i < |h| - 1 {
          assert !h[..|h| - 1][i].payload.Freed? && h'[..|h| - 1][i].payload.Freed?;
        }
      }
    }
  }

  /** `h'` is `h` with exactly the objects of `log` freed, in that order, and each
      of them only once everything that referenced it was freed before it. */
  ghost predicate Frees(h: Store, h': Store, log: seq<Ref>) {
    && |h| == |h'|
    && NoDup(log)
    && (forall x :: x in log ==> x < |h| && !h[x].payload.Freed?)
    && (forall i :: 0 <= i < |h| ==> h'[i].payload == if i in log then Freed else h[i].payload)
    && (forall k, j :: 0 <= k < |log| && 0 <= j < |h| && log[k] in Refs(j, h[j].payload) ==> j in log[..k])
  }

  lemma FreesShrinks(h: Store, h': Store, log: seq<Ref>)
    requires Frees(h, h', log)
    ensures Live(h') <= Live(h)
    ensures |log| > 0 ==> Live(h') < Live(h)
  {
    LiveShrinks(h, h');
    if |log| > 0 {
      assert log[0] in log;
    }
  }

  lemma FreesNothing(h: Store, h': Store)
    requires |h| == |h'| && forall i :: 0 <= i < |h| ==> h'[i].payload == h[i].payload
    ensures Frees(h, h', [])
  {
  }

  lemma NoDupConcat(a: seq<Ref>, b: seq<Ref>)
    requires NoDup(a) && NoDup(b) && forall x :: x in b ==> x !in a
    ensures NoDup(a + b)
  {
    forall i, j | 0 <= i < j < |a + b|
      ensures (a + b)[i] != (a + b)[j]
    {
      if i < |a| <= j {
        assert b[j - |a|] in b;
      }
    }
  }

  lemma FreesCompose(h: Store, h1: Store, h2: Store, log1: seq<Ref>, log2: seq<Ref>)
    requires Frees(h, h1, log1) && Frees(h1, h2, log2)
    ensures Frees(h, h2, log1 + log2)
  {
    var log := log1 + log2;
    NoDupConcat(log1, log2);
    forall k, j | 0 <= k < |log| && 0 <= j < |h| && log[k] in Refs(j, h[j].payload)
      ensures j in log[..k]
    {
      FreesComposeAt(h, h1, h2, log1, log2, k, j);
    }
  }

  lemma FreesComposeAt(h: Store, h1: Store, h2: Store, log1: seq<Ref>, log2: seq<Ref>, k: nat, j: nat)
    requires Frees(h, h1, log1) && Frees(h1, h2, log2)
    requires k < |log1 + log2| && j < |h| && (log1 + log2)[k] in Refs(j, h[j].payload)
    ensures j in (log1 + log2)[..k]
  {
    if k < |log1| {
      assert (log1 + log2)[..k] == log1[..k];
    } else {
      assert (log1 + log2)[..k] == log1 + log2[..k - |log1|];
      if j !in log1 {
        assert h1[j].payload == h[j].payload;
        assert log2[k - |log1|] in Refs(j, h1[j].payload);
      }
    }
  }

  /** Freeing one object nothing references. */
  lemma FreesOne(h: Store, h': Store, d: Ref)
    requires |h| == |h'| && d < |h| && !h[d].payload.Freed?
    requires forall i :: 0 <= i < |h| ==> h'[i].payload == if i == d then Freed else h[i].payload
    requires AllRefs(h)[d] == 0
    ensures Frees(h, h', [d])
  {
    forall j | 0 <= j < |h|
      ensures d !in Refs(j, h[j].payload)
    {
      RefsBelow(h, j);
      assert Refs(j, h[j].payload)[d] <= AllRefs(h)[d];
    }
  }

  lemma NoDupPrefix(s: seq<Ref>, d: Ref)
    requires NoDup(s + [d])
    ensures NoDup(s)
  {
    forall i, j | 0 <= i < j < |s|
      ensures s[i] != s[j]
    {
      assert (s + [d])[i] != (s + [d])[j];
    }
  }

  lemma FreedOwnsNothing(d: Ref)
    ensures Refs(d, Freed) == multiset{} && Bounds(Freed) == multiset{}
  {
  }

  /** Freeing a dead object turns the references it held into roots. */
  lemma FreeDead(h: Store, roots: multiset<Ref>, bounds: multiset<Ref>, dead: seq<Ref>, d: Ref)
    requires d !in dead && Exact(h, roots, bounds, dead + [d])
    ensures d < |h| && !h[d].payload.Freed?
    ensures var p := h[d].payload; var h' := h[d := h[d].(payload := Freed)];
            && Exact(h', roots + Refs(d, p), bounds + Bounds(p), dead)
            && Frees(h, h', [d])
  {
    hide AllRefs, AllBounds, SegRefs, SegBounds, Present, Refs, Bounds, Frees;
    assert d in dead + [d];
    var h' := h[d := h[d].(payload := Freed)];
    FreedOwnsNothing(d);
    RefsUpdate(h, d, h'[d]);
    FreesOne(h, h', d);
    forall x: Ref | AllRefs(h')[x] + (roots + Refs(d, h[d].payload))[x] > 0
      ensures x < |h'| && !h'[x].payload.Freed?
    {
      assert (AllRefs(h) + roots)[x] > 0;
    }
    assert forall i :: 0 <= i < |h| && i in dead + [d] && i != d ==> i in dead;
    forall i | 0 <= i < |h'|
      ensures h'[i].rc == AllRefs(h')[i] + (roots + Refs(d, h[d].payload))[i]
      ensures h'[i].nbound == AllBounds(h')[i] + (bounds + Bounds(h[d].payload))[i]
    {
      assert h'[i].rc == h[i].rc && h'[i].nbound == h[i].nbound;
    }
    assert forall x :: x in dead ==> x in dead + [d] && x != d;
    NoDupPrefix(dead, d);
  }

  /** Taking one reference out of `held`, of which `{x} + rest` are to be released. */
  lemma Peel(held: multiset<Ref>, x: Ref, rest: multiset<Ref>)
    requires multiset{x} + rest <= held
    ensures held[x] > 0 && rest <= held - multiset{x}
    ensures (held - multiset{x}) - rest == held - (multiset{x} + rest)
  {
    assert (multiset{x} + rest)[x] > 0;
  }

  lemma PeelMany(held: multiset<Ref>, some: multiset<Ref>, rest: multiset<Ref>)
    requires some + rest <= held
    ensures some <= held && rest <= held - some
    ensures (held - some) - rest == held - (some + rest)
  {
    forall x | x in some
      ensures some[x] <= held[x]
    {
      assert (some + rest)[x] <= held[x];
    }
  }

  // ---- release frees the least possible -----------------------------------

  /** The references held by objects outside `gone`. */
  function RefsOutside(h: Store, gone: set<Ref>): multiset<Ref> {
    if |h| == 0 then multiset{}
    else
      RefsOutside(h[..|h| - 1], gone) +
      (if |h| - 1 in gone then multiset{} else Refs(|h| - 1, h[|h| - 1].payload))
  }

  ghost function Elements(log: seq<Ref>): set<Ref> {
    set x | x in log
  }

  /** Freeing `gone` is enough: whatever stays is still referenced, by a root or by
      something that stays. */
  ghost predicate Enough(h: Store, roots: multiset<Ref>, gone: set<Ref>) {
    forall x :: 0 <= x < |h| && !h[x].payload.Freed? && x !in gone ==> RefsOutside(h, gone)[x] + roots[x] > 0
  }

  /** Freeing `gone` is safe: nothing that stays references it. */
  ghost predicate Safe(h: Store, roots: multiset<Ref>, gone: set<Ref>) {
    forall x :: x in gone ==> RefsOutside(h, gone)[x] + roots[x] == 0
  }

  lemma {:induction false} OutsideNone(h: Store, gone: set<Ref>, x: Ref)
    requires forall j :: 0 <= j < |h| && j !in gone ==> x !in Refs(j, h[j].payload)
    ensures RefsOutside(h, gone)[x] == 0
  {
    if |h| > 0 {
      OutsideNone(h[..|h| - 1], gone, x);
    }
  }

  lemma {:induction false} OutsideIsAll(h: Store, h': Store, gone: set<Ref>)
    requires |h| == |h'|
    requires forall i :: 0 <= i < |h| ==> h'[i].payload == if i in gone then Freed else h[i].payload
    ensures forall x: Ref :: AllRefs(h')[x] == RefsOutside(h, gone)[x]
  {
    if |h| > 0 {
      var n := |h| - 1;
      OutsideIsAll(h[..n], h'[..n], gone);
    }
  }

  /** What releasing frees is safe to free and enough to free, and is contained in
      every set that is enough: it is the least such set, so nothing referenced is
      freed and nothing unreferenced survives. */
  lemma ReleaseFreesTheLeast(h: Store, h': Store, roots: multiset<Ref>, bounds: multiset<Ref>, log: seq<Ref>, other: set<Ref>)
    requires Frees(h, h', log) && Exact(h', roots, bounds, [])
    ensures Enough(h, roots, Elements(log))
    ensures Safe(h, roots, Elements(log))
    ensures Enough(h, roots, other) ==> Elements(log) <= other
  {
    var gone := Elements(log);
    OutsideIsAll(h, h', gone);
    forall x | x in gone
      ensures RefsOutside(h, gone)[x] + roots[x] == 0
    {
      assert h'[x].payload.Freed?;
    }
    if Enough(h, roots, other) {
      LeastPrefix(h, h', roots, bounds, log, other, |log|);
    }
  }

  lemma {:induction false} LeastPrefix(h: Store, h': Store, roots: multiset<Ref>, bounds: multiset<Ref>, log: seq<Ref>, other: set<Ref>, k: nat)
    requires Frees(h, h', log) && Exact(h', roots, bounds, [])
    requires Enough(h, roots, other) && k <= |log|
    ensures forall i :: 0 <= i < k ==> log[i] in other
  {
    if k > 0 {
      LeastPrefix(h, h', roots, bounds, log, other, k - 1);
      var x, earlier := log[k - 1], log[..k - 1];
      assert x in log;
      assert h'[x].payload.Freed?;
      assert roots[x] == 0;
      forall j | 0 <= j < |h| && j !in other
        ensures x !in Refs(j, h[j].payload)
      {
        assert x in Refs(j, h[j].payload) ==> j in earlier;
      }
      OutsideNone(h, other, x);
    }
  }

  lemma {:induction false} OutsideNothing(h: Store)
    ensures forall x: Ref :: RefsOutside(h, {})[x] == AllRefs(h)[x]
  {
    hide Refs;
    if |h| > 0 {
      OutsideNothing(h[..|h| - 1]);
    }
  }

  /** Releasing a reference that is not the last frees nothing. */
  lemma NotTheLast(h: Store, h': Store, roots: multiset<Ref>, bounds: multiset<Ref>, log: seq<Ref>, x: Ref)
    requires Exact(h, roots, bounds, []) && roots[x] > 0 && x < |h| && h[x].rc > 1
    requires Frees(h, h', log) && Exact(h', roots - multiset{x}, bounds, [])
    ensures log == []
  {
    hide AllRefs, AllBounds, Refs, RefsOutside, Frees;
    var gone := Elements(log);
    assert |log| > 0 ==> log[0] in gone;
    OutsideNothing(h);
    forall i | 0 <= i < |h| && !h[i].payload.Freed? && i !in {}
      ensures RefsOutside(h, {})[i] + (roots - multiset{x})[i] > 0
    {
      assert h[i].rc == (AllRefs(h) + roots)[i];
    }
    assert Enough(h, roots - multiset{x}, {});
    ReleaseFreesTheLeast(h, h', roots - multiset{x}, bounds, log, {});
  }

  lemma {:induction false} FreeingDropsRefs(h: Store, h': Store)
    requires |h| == |h'|
    requires forall i :: 0 <= i < |h| ==> h'[i].payload == h[i].payload || h'[i].payload.Freed?
    ensures forall x: Ref :: AllRefs(h')[x] <= AllRefs(h)[x]
  {
    hide Refs;
    if |h| > 0 {
      FreeingDropsRefs(h[..|h| - 1], h'[..|h| - 1]);
      FreedOwnsNothing(|h| - 1);
    }
  }

  /** Releasing the last reference frees the object. */
  lemma TheLast(h: Store, h': Store, roots: multiset<Ref>, bounds: multiset<Ref>, log: seq<Ref>, x: Ref)
    requires Exact(h, roots, bounds, []) && roots[x] > 0 && x < |h| && h[x].rc == 1
    requires Frees(h, h', log) && Exact(h', roots - multiset{x}, bounds, [])
    ensures x < |h'| && h'[x].payload.Freed?
  {
    hide AllRefs, AllBounds, Refs;
    FreeingDropsRefs(h, h');
    assert h[x].rc == (AllRefs(h) + roots)[x];
    assert h'[x].rc == (AllRefs(h') + (roots - multiset{x}))[x];
  }

  lemma {:induction false} OutsideChildless(h: Store, x: Ref)
    requires x < |h| ==> Refs(x, h[x].payload) == multiset{}
    ensures forall y: Ref :: RefsOutside(h, {x})[y] == AllRefs(h)[y]
  {
    hide Refs;
    if |h| > 0 {
      OutsideChildless(h[..|h| - 1], x);
    }
  }

  /** Releasing an object that holds nothing frees at most that object. */
  lemma OnlyItself(h: Store, h': Store, roots: multiset<Ref>, bounds: multiset<Ref>, log: seq<Ref>, x: Ref)
    requires Exact(h, roots, bounds, []) && roots[x] > 0 && x < |h| && Refs(x, h[x].payload) == multiset{}
    requires Frees(h, h', log) && Exact(h', roots - multiset{x}, bounds, [])
    ensures forall y :: y in log ==> y == x
  {
    hide AllRefs, AllBounds, Refs, RefsOutside, Frees;
    OutsideChildless(h, x);
    forall y | 0 <= y < |h| && !h[y].payload.Freed? && y !in {x}
      ensures RefsOutside(h, {x})[y] + (roots - multiset{x})[y] > 0
    {
      assert h[y].rc == (AllRefs(h) + roots)[y];
    }
    assert Enough(h, roots - multiset{x}, {x});
    ReleaseFreesTheLeast(h, h', roots - multiset{x}, bounds, log, {x});
    forall y | y in log
      ensures y == x
    {
      assert y in Elements(log);
    }
  }
}
