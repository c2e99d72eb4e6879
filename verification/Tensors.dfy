/** Strided tensors: views over a flat buffer, the loops that read and build them, and
    the laws that tie views to each other. */
module Tensors {
  import opened Common
  import opened Shapes

  const WORDS: int := 0x1_0000_0000_0000_0000

  /** A 64-bit integer. */
  type Word = i: int | -WORDS / 2 <= i < WORDS / 2

  /** A cell, an operand or a result; `Boxed` stands for every value that is neither an
      integer nor a tensor. */
  datatype Elem = Int(value: Word) | Boxed(id: nat) | View(tensor: Tensor)

  datatype Tensor = Tensor(buf: seq<Elem>, off: nat, shape: seq<nat>, strides: seq<nat>)

  predicate Shaped(t: Tensor) {
    |t.strides| == |t.shape|
  }

  function Pos(t: Tensor, idx: seq<nat>): nat
    requires Shaped(t) && |idx| == |t.shape|
  {
    t.off + Flat(idx, t.strides)
  }

  /** Every index of the shape is a position of the buffer. */
  ghost predicate Inside(t: Tensor) {
    Shaped(t) && forall idx :: InShape(idx, t.shape) ==> Pos(t, idx) < |t.buf|
  }

  ghost function At(t: Tensor, idx: seq<nat>): Elem
    requires Inside(t) && InShape(idx, t.shape)
  {
    t.buf[Pos(t, idx)]
  }

  /** A tensor whose indices, and those of every tensor it holds, stay inside. */
  ghost predicate Good(e: Elem)
    decreases e
  {
    e.View? ==> Inside(e.tensor) && forall i :: 0 <= i < |e.tensor.buf| ==> Good(e.tensor.buf[i])
  }

  /** The same shape and the same elements, in whatever buffers. */
  ghost predicate Same(a: Tensor, b: Tensor) {
    Inside(a) && Inside(b) && a.shape == b.shape && forall idx :: InShape(idx, a.shape) ==> At(a, idx) == At(b, idx)
  }

  // ---- gathering ----------------------------------------------------------

  /** The element at a place in row-major order. */
  ghost function Nth(t: Tensor, m: nat): Elem
    requires Inside(t) && m < Total(t.shape)
  {
    IndexInShape(m, t.shape);
    At(t, IndexOf(m, t.shape))
  }

  ghost function Gathered(t: Tensor): (r: seq<Elem>)
    requires Inside(t)
    ensures |r| == Total(t.shape)
  {
    seq(Total(t.shape), m requires 0 <= m < Total(t.shape) => Nth(t, m))
  }

  method PositionOf(t: Tensor, idx: array<nat>) returns (flat: nat)
    requires Shaped(t) && idx.Length == |t.shape|
    ensures flat == Pos(t, idx[..])
  {
    flat := t.off;
    for k := 0 to |t.shape|
      invariant flat == t.off + Flat(idx[..k], t.strides[..k])
    {
      assert Init(idx[..k + 1]) == idx[..k] && Init(t.strides[..k + 1]) == t.strides[..k];
      flat := flat + idx[k] * t.strides[k];
    }
    assert idx[..|t.shape|] == idx[..] && t.strides[..|t.shape|] == t.strides;
  }

  ghost predicate InsideAt(t: Tensor, m: nat)
    requires Shaped(t) && m < Total(t.shape)
  {
    Pos(t, IndexOf(m, t.shape)) < |t.buf|
  }

  /** Every index in turn, by an odometer over the axes. */
  method GatherByIndex(t: Tensor, out: array<Elem>, at: nat) returns (ok: bool)
    requires Shaped(t) && Total(t.shape) > 0 && at + Total(t.shape) <= out.Length
    modifies out
    ensures ok <==> Inside(t)
    ensures ok ==> out[at..at + Total(t.shape)] == Gathered(t)
    ensures forall i :: 0 <= i < out.Length && !(at <= i < at + Total(t.shape)) ==> out[i] == old(out[i])
  {
    hide Total, Flat, IndexOf, Pos;
    var total := CountTotal(t.shape);
    ghost var was := out[..];
    var idx := new nat[|t.shape|](k => 0);
    FirstIndex(t.shape);
    assert idx[..] == IndexOf(0, t.shape);
    var m := 0;
    while m < total
      invariant m <= total == Total(t.shape)
      invariant m < total ==> idx[..] == IndexOf(m, t.shape)
      invariant forall j :: 0 <= j < m ==> InsideAt(t, j) && out[at + j] == t.buf[Pos(t, IndexOf(j, t.shape))]
      invariant forall i :: 0 <= i < out.Length && !(at <= i < at + m) ==> out[i] == was[i]
    {
      var flat := PositionOf(t, idx);
      if flat >= |t.buf| {
        NotInside(t, m);
        return false;
      }
      out[at + m] := t.buf[flat];
      StepOdometer(idx, t.shape);
      if m + 1 < total {
        TickIsNext(m, t.shape);
      }
      m := m + 1;
    }
    AllInside(t);
    ok := true;
  }

  lemma NoIndices(t: Tensor)
    requires Shaped(t) && Total(t.shape) == 0
    ensures Inside(t) && Gathered(t) == []
  {
    forall idx | InShape(idx, t.shape)
      ensures Pos(t, idx) < |t.buf|
    {
      RankInverse(idx, t.shape);
    }
  }

  lemma NotInside(t: Tensor, m: nat)
    requires Shaped(t) && m < Total(t.shape) && !InsideAt(t, m)
    ensures !Inside(t)
  {
    IndexInShape(m, t.shape);
  }

  lemma AllInside(t: Tensor)
    requires Shaped(t) && forall m :: 0 <= m < Total(t.shape) ==> InsideAt(t, m)
    ensures Inside(t)
  {
    forall idx | InShape(idx, t.shape)
      ensures Pos(t, idx) < |t.buf|
    {
      RankInverse(idx, t.shape);
      assert InsideAt(t, RankOf(idx, t.shape));
    }
  }

  /** A rank-one view is read with one stride. */
  method GatherRow(t: Tensor, out: array<Elem>, at: nat) returns (ok: bool)
    requires Shaped(t) && |t.shape| == 1 && at + t.shape[0] <= out.Length
    modifies out
    ensures ok <==> Inside(t)
    ensures ok ==> at + Total(t.shape) <= out.Length && out[at..at + Total(t.shape)] == Gathered(t)
    ensures forall i :: 0 <= i < out.Length && !(at <= i < at + t.shape[0]) ==> out[i] == old(out[i])
  {
    hide Total, Flat, IndexOf, RankOf;
    ghost var was := out[..];
    OneAxis(t.shape);
    for m := 0 to t.shape[0]
      invariant forall j :: 0 <= j < m ==> t.off + j * t.strides[0] < |t.buf| && out[at + j] == t.buf[t.off + j * t.strides[0]]
      invariant forall i :: 0 <= i < out.Length && !(at <= i < at + m) ==> out[i] == was[i]
    {
      OnePos(t, m);
      if t.off + m * t.strides[0] >= |t.buf| {
        assert InShape([m], t.shape);
        return false;
      }
      out[at + m] := t.buf[t.off + m * t.strides[0]];
    }
    forall m | 0 <= m < Total(t.shape)
      ensures InsideAt(t, m)
    {
      OnePos(t, m);
    }
    AllInside(t);
    forall m | 0 <= m < Total(t.shape)
      ensures out[at + m] == Gathered(t)[m]
    {
      OnePos(t, m);
    }
    ok := true;
  }

  lemma OneAxis(shape: seq<nat>)
    requires |shape| == 1
    ensures Total(shape) == shape[0]
    ensures forall m :: 0 <= m < shape[0] ==> IndexOf(m, shape) == [m]
  {
    assert Init(shape) == [];
    assert Total([]) == 1;
  }

  lemma OnePos(t: Tensor, m: nat)
    requires Shaped(t) && |t.shape| == 1
    ensures Pos(t, [m]) == t.off + m * t.strides[0]
  {
    assert t.strides == [t.strides[0]];
    FlatOne(m, t.strides[0]);
  }

  /** The tensor's elements in row-major order, following the view, into `out` from
      `at`; or a fault, exactly when some index of the shape is outside the buffer. */
  method Gather(t: Tensor, out: array<Elem>, at: nat) returns (ok: bool)
    requires Shaped(t) && at + Total(t.shape) <= out.Length
    modifies out
    ensures ok <==> Inside(t)
    ensures ok ==> out[at..at + Total(t.shape)] == Gathered(t)
    ensures forall i :: 0 <= i < out.Length && !(at <= i < at + Total(t.shape)) ==> out[i] == old(out[i])
  {
    var total := CountTotal(t.shape);
    if total == 0 {
      NoIndices(t);
      return true;
    }
    if |t.shape| == 1 {
      OneAxis(t.shape);
      ok := GatherRow(t, out, at);
    } else {
      ok := GatherByIndex(t, out, at);
    }
  }

  /** What a gather puts where: the element of every index, at the index's place. */
  lemma GatheredAt(t: Tensor, idx: seq<nat>)
    requires Inside(t) && InShape(idx, t.shape)
    ensures RankOf(idx, t.shape) < Total(t.shape) && Gathered(t)[RankOf(idx, t.shape)] == At(t, idx)
  {
    RankInverse(idx, t.shape);
  }

  // ---- contiguous tensors -------------------------------------------------

  function Contiguous(items: seq<Elem>, shape: seq<nat>): Tensor {
    Tensor(items, 0, shape, RowStrides(shape))
  }

  method TensorOf(items: seq<Elem>, shape: seq<nat>) returns (t: Tensor)
    ensures t == Contiguous(items, shape)
  {
    var strides := new nat[|shape|];
    var total := FillRowMajor(shape, strides);
    t := Tensor(items, 0, shape, strides[..]);
  }

  lemma ContiguousInside(items: seq<Elem>, shape: seq<nat>)
    requires |items| == Total(shape)
    ensures Inside(Contiguous(items, shape))
    ensures forall idx :: InShape(idx, shape) ==> RankOf(idx, shape) < |items| && At(Contiguous(items, shape), idx) == items[RankOf(idx, shape)]
  {
    var t := Contiguous(items, shape);
    forall idx | InShape(idx, shape)
      ensures Pos(t, idx) == RankOf(idx, shape) < |items|
    {
      FlatIsRank(idx, shape);
      RankInverse(idx, shape);
    }
  }

  /** Rebuilding a tensor from its gathered elements gives the tensor. */
  lemma RebuildIsSame(t: Tensor)
    requires Inside(t)
    ensures Same(Contiguous(Gathered(t), t.shape), t)
  {
    ContiguousInside(Gathered(t), t.shape);
    forall idx | InShape(idx, t.shape)
      ensures At(Contiguous(Gathered(t), t.shape), idx) == At(t, idx)
    {
      GatheredAt(t, idx);
    }
  }

  /** Two tensors gather alike exactly when they are the same. */
  lemma SameGathers(a: Tensor, b: Tensor)
    requires Inside(a) && Inside(b) && a.shape == b.shape
    ensures Gathered(a) == Gathered(b) <==> Same(a, b)
  {
    if Gathered(a) == Gathered(b) {
      forall idx | InShape(idx, a.shape)
        ensures At(a, idx) == At(b, idx)
      {
        GatheredAt(a, idx);
        GatheredAt(b, idx);
      }
    }
    if Same(a, b) {
      forall m | 0 <= m < Total(a.shape)
        ensures Gathered(a)[m] == Gathered(b)[m]
      {
        IndexInShape(m, a.shape);
      }
    }
  }

  /** Structural equality of tensors, elements compared by `eq`. */
  method Equal(x: Tensor, y: Tensor, eq: (Elem, Elem) -> bool) returns (r: bool)
    requires Inside(x) && Inside(y)
    ensures r <==> x.shape == y.shape && forall idx :: InShape(idx, x.shape) ==> eq(At(x, idx), At(y, idx))
  {
    if x.shape != y.shape {
      return false;
    }
    var total := CountTotal(x.shape);
    var xs, ys := new Elem[total](i => Boxed(0)), new Elem[total](i => Boxed(0));
    var okx := Gather(x, xs, 0);
    var oky := Gather(y, ys, 0);
    assert xs[..total] == Gathered(x) && ys[..total] == Gathered(y);
    r := true;
    var m := 0;
    while r && m < total
      invariant m <= total && xs[..total] == Gathered(x) && ys[..total] == Gathered(y)
      invariant r ==> forall j :: 0 <= j < m ==> eq(Nth(x, j), Nth(y, j))
      invariant !r ==> exists j :: 0 <= j < m && !eq(Nth(x, j), Nth(y, j))
    {
      assert xs[m] == Gathered(x)[m] && ys[m] == Gathered(y)[m];
      r := eq(xs[m], ys[m]);
      m := m + 1;
    }
    EqualByPlace(x, y, eq);
  }

  lemma EqualByPlace(x: Tensor, y: Tensor, eq: (Elem, Elem) -> bool)
    requires Inside(x) && Inside(y) && x.shape == y.shape
    ensures (forall idx :: InShape(idx, x.shape) ==> eq(At(x, idx), At(y, idx))) <==>
            (forall m :: 0 <= m < Total(x.shape) ==> eq(Nth(x, m), Nth(y, m)))
  {
    forall m | 0 <= m < Total(x.shape)
      ensures InShape(IndexOf(m, x.shape), x.shape)
    {
      IndexInShape(m, x.shape);
    }
    if forall m :: 0 <= m < Total(x.shape) ==> eq(Nth(x, m), Nth(y, m)) {
      forall idx | InShape(idx, x.shape)
        ensures eq(At(x, idx), At(y, idx))
      {
        RankInverse(idx, x.shape);
        assert Nth(x, RankOf(idx, x.shape)) == At(x, idx) && Nth(y, RankOf(idx, x.shape)) == At(y, idx);
      }
    }
  }
}
