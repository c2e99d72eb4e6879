/** Fresh tensors from gathered ones: concatenation and stacking, their index laws, and
    that no built-in ever makes a tensor that reaches outside its buffer. */
module Stacking {
  import opened Common
  import opened Shapes
  import opened Tensors
  import opened Views

  // ---- concatenation ------------------------------------------------------

  /** Two tensors that agree on every axis but the first. */
  predicate Joinable(x: Tensor, y: Tensor) {
    && Shaped(x) && Shaped(y) && |x.shape| == |y.shape| && |x.shape| > 0
    && x.shape[1..] == y.shape[1..]
  }

  ghost function Joined(x: Tensor, y: Tensor): (t: Tensor)
    requires Inside(x) && Inside(y) && |x.shape| > 0 && |y.shape| > 0
    ensures Shaped(t) && t.shape == x.shape[0 := x.shape[0] + y.shape[0]]
  {
    Contiguous(Gathered(x) + Gathered(y), x.shape[0 := x.shape[0] + y.shape[0]])
  }

  method Concat(a: Elem, b: Elem) returns (r: Option<Elem>)
    ensures r.Some? <==> a.View? && b.View? && Joinable(a.tensor, b.tensor) && Inside(a.tensor) && Inside(b.tensor)
    ensures r.Some? ==> r.value == View(Joined(a.tensor, b.tensor))
  {
    hide Inside, Gathered, Total;
    var left, right := AsTensor(a), AsTensor(b);
    if left.None? || right.None? {
      return None;
    }
    var x, y := left.value, right.value;
    var rank := |x.shape|;
    if rank != |y.shape| || rank == 0 {
      return None;
    }
    for k := 1 to rank
      invariant forall i :: 1 <= i < k ==> x.shape[i] == y.shape[i]
    {
      if x.shape[k] != y.shape[k] {
        assert x.shape[1..][k - 1] != y.shape[1..][k - 1];
        return None;
      }
    }
    var nx := CountTotal(x.shape);
    var ny := CountTotal(y.shape);
    var items := new Elem[nx + ny](i => Boxed(0));
    var okx := Gather(x, items, 0);
    if !okx {
      return None;
    }
    ghost var front := items[..nx];
    var oky := Gather(y, items, nx);
    if !oky {
      return None;
    }
    assert items[..nx] == front && items[..] == items[..nx] + items[nx..nx + ny];
    var t := TensorOf(items[..], x.shape[0 := x.shape[0] + y.shape[0]]);
    r := Some(View(t));
  }

  /** A concatenation holds the first tensor's rows, then the second's. */
  lemma JoinedAt(x: Tensor, y: Tensor)
    requires Joinable(x, y) && Inside(x) && Inside(y)
    ensures var t, n := Joined(x, y), x.shape[0];
            && Inside(t)
            && forall idx :: InShape(idx, t.shape) ==>
                 if idx[0] < n then InShape(idx, x.shape) && At(t, idx) == At(x, idx)
                 else InShape(idx[0 := idx[0] - n], y.shape) && At(t, idx) == At(y, idx[0 := idx[0] - n])
  {
    hide RankOf, Total, Flat, Gathered, At;
    var t := Joined(x, y);
    JoinedTotal(x, y);
    ContiguousInside(Gathered(x) + Gathered(y), t.shape);
    forall idx | InShape(idx, t.shape)
      ensures if idx[0] < x.shape[0] then InShape(idx, x.shape) && At(t, idx) == At(x, idx)
              else InShape(idx[0 := idx[0] - x.shape[0]], y.shape) && At(t, idx) == At(y, idx[0 := idx[0] - x.shape[0]])
    {
      JoinedItem(x, y, idx);
    }
  }

  lemma JoinedItem(x: Tensor, y: Tensor, idx: seq<nat>)
    requires Joinable(x, y) && Inside(x) && Inside(y) && InShape(idx, x.shape[0 := x.shape[0] + y.shape[0]])
    ensures var items, p, n := Gathered(x) + Gathered(y), RankOf(idx, x.shape[0 := x.shape[0] + y.shape[0]]), x.shape[0];
            p < |items| && if idx[0] < n then InShape(idx, x.shape) && items[p] == At(x, idx)
                           else InShape(idx[0 := idx[0] - n], y.shape) && items[p] == At(y, idx[0 := idx[0] - n])
  {
    hide RankOf, Total, Flat, Gathered, At;
    JoinedRank(x, y, idx);
    if idx[0] < x.shape[0] {
      GatheredAt(x, idx);
    } else {
      GatheredAt(y, idx[0 := idx[0] - x.shape[0]]);
    }
  }

  lemma JoinedTotal(x: Tensor, y: Tensor)
    requires Joinable(x, y)
    ensures Total(x.shape[0 := x.shape[0] + y.shape[0]]) == Total(x.shape) + Total(y.shape)
  {
    var s := x.shape[0 := x.shape[0] + y.shape[0]];
    assert s[1..] == x.shape[1..];
    TotalFirst(s);
    TotalFirst(x.shape);
    TotalFirst(y.shape);
    Spread1(x.shape[0], y.shape[0], Total(x.shape[1..]));
  }

  lemma Spread1(a: int, b: int, c: int)
    ensures (a + b) * c == a * c + b * c
  {
  }

  lemma JoinedRank(x: Tensor, y: Tensor, idx: seq<nat>)
    requires Joinable(x, y) && InShape(idx, x.shape[0 := x.shape[0] + y.shape[0]])
    ensures var s, n := x.shape[0 := x.shape[0] + y.shape[0]], x.shape[0];
            if idx[0] < n then InShape(idx, x.shape) && RankOf(idx, s) == RankOf(idx, x.shape)
            else InShape(idx[0 := idx[0] - n], y.shape) && RankOf(idx, s) == Total(x.shape) + RankOf(idx[0 := idx[0] - n], y.shape)
  {
    hide Total, RankOf;
    var s, n := x.shape[0 := x.shape[0] + y.shape[0]], x.shape[0];
    assert s[1..] == x.shape[1..];
    assert forall k :: 1 <= k < |idx| ==> idx[k] < s[k] == x.shape[k] == x.shape[1..][k - 1] == y.shape[1..][k - 1];
    RankFirst(idx, s);
    RankFirst(idx, x.shape);
    if idx[0] >= n {
      var moved := idx[0 := idx[0] - n];
      assert moved[1..] == idx[1..];
      RankFirst(moved, y.shape);
      TotalFirst(x.shape);
      Spread1(n, idx[0] - n, Total(x.shape[1..]));
    }
  }

  /** Slicing a concatenation where it was joined gives back both tensors. */
  lemma SlicesOfJoined(x: Tensor, y: Tensor)
    requires Joinable(x, y) && Inside(x) && Inside(y)
    ensures var t, n := Joined(x, y), x.shape[0];
            Same(Sliced(t, 0, 0, n), x) && Same(Sliced(t, 0, n, n + y.shape[0]), y)
  {
    FrontOfJoined(x, y);
    BackOfJoined(x, y);
  }

  /** One index of a concatenation. */
  lemma JoinedOf(x: Tensor, y: Tensor, idx: seq<nat>)
    requires Joinable(x, y) && Inside(x) && Inside(y) && InShape(idx, Joined(x, y).shape)
    ensures Inside(Joined(x, y))
    ensures var t, n := Joined(x, y), x.shape[0];
            if idx[0] < n then InShape(idx, x.shape) && At(t, idx) == At(x, idx)
            else InShape(idx[0 := idx[0] - n], y.shape) && At(t, idx) == At(y, idx[0 := idx[0] - n])
  {
    JoinedAt(x, y);
  }

  /** One index of a slice. */
  lemma SlicedOf(t: Tensor, lo: nat, hi: nat, idx: seq<nat>)
    requires Inside(t) && |t.shape| > 0 && lo <= hi <= t.shape[0] && InShape(idx, t.shape[0 := hi - lo])
    ensures var s, moved := Sliced(t, 0, lo, hi), idx[0 := idx[0] + lo];
            Inside(s) && s.shape == t.shape[0 := hi - lo] && InShape(moved, t.shape) && At(s, idx) == At(t, moved)
  {
    SlicedInside(t, lo, hi);
    hide Pos;
    SlicedPos(t, 0, lo, hi, idx);
  }

  lemma SlicedInside(t: Tensor, lo: nat, hi: nat)
    requires Inside(t) && |t.shape| > 0 && lo <= hi <= t.shape[0]
    ensures Inside(Sliced(t, 0, lo, hi)) && Sliced(t, 0, lo, hi).shape == t.shape[0 := hi - lo]
  {
    SlicedAt(t, 0, lo, hi);
  }

  lemma JoinedInside(x: Tensor, y: Tensor)
    requires Joinable(x, y) && Inside(x) && Inside(y)
    ensures Inside(Joined(x, y))
  {
    JoinedAt(x, y);
  }

  lemma FrontOfJoined(x: Tensor, y: Tensor)
    requires Joinable(x, y) && Inside(x) && Inside(y)
    ensures Same(Sliced(Joined(x, y), 0, 0, x.shape[0]), x)
  {
    hide Joined, Inside, At, Pos, Sliced;
    var t, n := Joined(x, y), x.shape[0];
    JoinedInside(x, y);
    SlicedInside(t, 0, n);
    forall idx | InShape(idx, x.shape)
      ensures At(Sliced(t, 0, 0, n), idx) == At(x, idx)
    {
      SlicedOf(t, 0, n, idx);
      assert idx[0 := idx[0] + 0] == idx;
      JoinedOf(x, y, idx);
    }
  }

  lemma InShapeLong(idx: seq<nat>, shape: seq<nat>)
    requires InShape(idx, shape)
    ensures |idx| == |shape|
  {
  }

  lemma BackOfJoined(x: Tensor, y: Tensor)
    requires Joinable(x, y) && Inside(x) && Inside(y)
    ensures Same(Sliced(Joined(x, y), 0, x.shape[0], x.shape[0] + y.shape[0]), y)
  {
    hide Joined, Inside, At, Pos, Sliced, InShape;
    var t, n, m := Joined(x, y), x.shape[0], y.shape[0];
    JoinedInside(x, y);
    SlicedInside(t, n, n + m);
    assert t.shape[0 := m] == y.shape by {
      assert y.shape == [m] + y.shape[1..] && x.shape == [n] + x.shape[1..];
    }
    forall idx | InShape(idx, y.shape)
      ensures At(Sliced(t, 0, n, n + m), idx) == At(y, idx)
    {
      SlicedOf(t, n, n + m, idx);
      InShapeLong(idx, y.shape);
      var moved := idx[0 := idx[0] + n];
      JoinedOf(x, y, moved);
      assert moved[0 := moved[0] - n] == idx;
    }
  }

  /** Cutting a tensor in two along its first axis and joining the parts gives it back. */
  lemma JoinOfSlices(t: Tensor, k: nat)
    requires Inside(t) && |t.shape| > 0 && k <= t.shape[0]
    ensures var a, b := Sliced(t, 0, 0, k), Sliced(t, 0, k, t.shape[0]);
            Joinable(a, b) && Inside(a) && Inside(b) && Same(Joined(a, b), t)
  {
    hide Joined, At, Pos, Sliced;
    var n := t.shape[0];
    var a, b := Sliced(t, 0, 0, k), Sliced(t, 0, k, n);
    SlicedInside(t, 0, k);
    SlicedInside(t, k, n);
    hide Inside;
    assert a.shape[1..] == t.shape[1..] && b.shape[1..] == t.shape[1..];
    JoinedInside(a, b);
    assert Joined(a, b).shape == t.shape;
    forall idx | InShape(idx, t.shape)
      ensures At(Joined(a, b), idx) == At(t, idx)
    {
      JoinedOf(a, b, idx);
      if idx[0] < k {
        SlicedOf(t, 0, k, idx);
        assert idx[0 := idx[0] + 0] == idx;
      } else {
        var moved := idx[0 := idx[0] - k];
        SlicedOf(t, k, n, moved);
        assert moved[0 := moved[0] + k] == idx;
      }
    }
  }

  // ---- stacking -----------------------------------------------------------

  /** Tensors of one shape, all inside their buffers. */
  ghost predicate Alike(elems: seq<Elem>, shape: seq<nat>) {
    forall i :: 0 <= i < |elems| ==> elems[i].View? && Inside(elems[i].tensor) && elems[i].tensor.shape == shape
  }

  /** The elements of the first `k`, one after another. */
  ghost function Rows(elems: seq<Elem>, shape: seq<nat>, k: nat): (r: seq<Elem>)
    requires Alike(elems, shape) && k <= |elems|
    ensures |r| == k * Total(shape)
  {
    if k == 0 then []
    else
      MulNext(k, Total(shape));
      Rows(elems, shape, k - 1) + Gathered(elems[k - 1].tensor)
  }

  lemma MulNext(k: nat, c: nat)
    requires k > 0
    ensures (k - 1) * c + c == k * c
  {
  }

  ghost predicate Stackable(elems: seq<Elem>) {
    |elems| > 0 && elems[0].View? ==> Alike(elems, elems[0].tensor.shape)
  }

  /** Elements stacked on a new first axis. */
  ghost function Stacked(elems: seq<Elem>): Tensor
    requires Stackable(elems)
  {
    if |elems| == 0 || !elems[0].View? then Contiguous(elems, [|elems|])
    else
      var shape := elems[0].tensor.shape;
      Contiguous(Rows(elems, shape, |elems|), [|elems|] + shape)
  }

  method Stack(elems: seq<Elem>) returns (r: Option<Elem>)
    ensures r.Some? <==> Stackable(elems)
    ensures r.Some? ==> r.value == View(Stacked(elems))
  {
    hide Total, Inside, Gathered;
    var n := |elems|;
    if n == 0 || !elems[0].View? {
      var flat := TensorOf(elems, [n]);
      return Some(View(flat));
    }
    r := StackTensors(elems);
  }

  method StackTensors(elems: seq<Elem>) returns (r: Option<Elem>)
    requires |elems| > 0 && elems[0].View?
    ensures r.Some? <==> Stackable(elems)
    ensures r.Some? ==> r.value == View(Stacked(elems))
  {
    hide Total, Inside, Gathered, Alike, Rows, Stackable, Stacked, Contiguous;
    var n, shape := |elems|, elems[0].tensor.shape;
    var sub := CountTotal(shape);
    var items := new Elem[n * sub](i => Boxed(0));
    NoRows(elems, shape);
    var i := 0;
    while i < n
      invariant i <= n && Alike(elems[..i], shape)
      invariant i * sub <= items.Length == n * sub && items[..i * sub] == Rows(elems[..i], shape, i)
    {
      MulNext(i + 1, sub);
      MulMono(i + 1, n, sub);
      ghost var before := items[..i * sub];
      var ok := GatherAlike(elems[i], shape, items, i * sub);
      if !ok {
        NotStackable(elems, i);
        return None;
      }
      assert items[..(i + 1) * sub] == before + items[i * sub..i * sub + sub];
      OneMoreRow(elems, shape, i);
      i := i + 1;
    }
    assert elems[..n] == elems && items[..] == items[..n * sub];
    var t := TensorOf(items[..], [n] + shape);
    AllRows(elems);
    r := Some(View(t));
  }

  lemma NoRows(elems: seq<Elem>, shape: seq<nat>)
    ensures Alike(elems[..0], shape) && Rows(elems[..0], shape, 0) == []
  {
  }

  lemma NotStackable(elems: seq<Elem>, i: nat)
    requires i < |elems| && elems[0].View?
    requires !(elems[i].View? && Inside(elems[i].tensor) && elems[i].tensor.shape == elems[0].tensor.shape)
    ensures !Stackable(elems)
  {
  }

  lemma OneMoreRow(elems: seq<Elem>, shape: seq<nat>, i: nat)
    requires i < |elems| && Alike(elems[..i], shape) && elems[i].View? && Inside(elems[i].tensor) && elems[i].tensor.shape == shape
    ensures Alike(elems[..i + 1], shape) && Rows(elems[..i + 1], shape, i + 1) == Rows(elems[..i], shape, i) + Gathered(elems[i].tensor)
  {
    hide Gathered, Inside;
    RowsPrefix(elems[..i + 1], elems[..i], shape, i);
  }

  lemma AllRows(elems: seq<Elem>)
    requires |elems| > 0 && elems[0].View? && Alike(elems, elems[0].tensor.shape)
    ensures Stackable(elems)
    ensures Stacked(elems) == Contiguous(Rows(elems, elems[0].tensor.shape, |elems|), [|elems|] + elems[0].tensor.shape)
  {
  }

  /** Gather one element of a stack, if it is a tensor of the stack's shape. */
  method GatherAlike(e: Elem, shape: seq<nat>, items: array<Elem>, at: nat) returns (ok: bool)
    requires at + Total(shape) <= items.Length
    modifies items
    ensures ok <==> e.View? && Inside(e.tensor) && e.tensor.shape == shape
    ensures ok ==> items[at..at + Total(shape)] == Gathered(e.tensor)
    ensures items[..at] == old(items[..at])
  {
    if AsTensor(e).None? || e.tensor.shape != shape {
      return false;
    }
    ok := Gather(e.tensor, items, at);
  }

  lemma {:induction false} RowsPrefix(elems: seq<Elem>, fewer: seq<Elem>, shape: seq<nat>, k: nat)
    requires Alike(fewer, shape) && k <= |fewer| <= |elems| && Alike(elems[..k], shape) && fewer == elems[..|fewer|]
    ensures Alike(elems, shape) ==> Rows(elems, shape, k) == Rows(fewer, shape, k)
    decreases k
  {
    if k > 0 && Alike(elems, shape) {
      RowsPrefix(elems, fewer, shape, k - 1);
      assert elems[k - 1] == fewer[k - 1];
    }
  }

  lemma {:induction false} RowsAt(elems: seq<Elem>, shape: seq<nat>, k: nat, i: nat, m: nat)
    requires Alike(elems, shape) && i < k <= |elems| && m < Total(shape)
    ensures i * Total(shape) + m < k * Total(shape) && Rows(elems, shape, k)[i * Total(shape) + m] == Nth(elems[i].tensor, m)
    decreases k
  {
    MulNext(k, Total(shape));
    if i < k - 1 {
      RowsAt(elems, shape, k - 1, i, m);
    }
  }

  /** A stack of tensors holds, at `[i] + idx`, what its `i`-th tensor holds at `idx`. */
  lemma StackedAt(elems: seq<Elem>)
    requires Stackable(elems) && |elems| > 0 && elems[0].View?
    ensures var t, shape := Stacked(elems), elems[0].tensor.shape;
            && Inside(t) && t.shape == [|elems|] + shape
            && forall i, idx :: 0 <= i < |elems| && InShape(idx, shape) ==> InShape([i] + idx, t.shape) && At(t, [i] + idx) == At(elems[i].tensor, idx)
  {
    hide Total, RankOf, Flat, At, Rows, Inside;
    var t, n, shape := Stacked(elems), |elems|, elems[0].tensor.shape;
    RankSplit(0, shape, n, shape);
    ContiguousInside(Rows(elems, shape, n), t.shape);
    forall i, idx | 0 <= i < n && InShape(idx, shape)
      ensures InShape([i] + idx, t.shape) && At(t, [i] + idx) == At(elems[i].tensor, idx)
    {
      StackedItem(elems, shape, i, idx);
      assert InShape([i] + idx, t.shape);
    }
  }

  lemma StackedItem(elems: seq<Elem>, shape: seq<nat>, i: nat, idx: seq<nat>)
    requires Alike(elems, shape) && i < |elems| && InShape(idx, shape)
    ensures var p := RankOf([i] + idx, [|elems|] + shape);
            p < |elems| * Total(shape) && Rows(elems, shape, |elems|)[p] == At(elems[i].tensor, idx)
  {
    hide Total, RankOf, Flat, At, Rows, Inside;
    RankSplit(i, idx, |elems|, shape);
    RankInverse(idx, shape);
    RowsAt(elems, shape, |elems|, i, RankOf(idx, shape));
  }

  /** A stack of scalars, or of nothing, is a vector of them. */
  lemma StackedScalars(elems: seq<Elem>)
    requires |elems| == 0 || !elems[0].View?
    ensures var t := Stacked(elems);
            && Inside(t) && t.shape == [|elems|]
            && forall i :: 0 <= i < |elems| ==> InShape([i], t.shape) && At(t, [i]) == elems[i]
  {
    OneAxis([|elems|]);
    ContiguousInside(elems, [|elems|]);
    forall i | 0 <= i < |elems|
      ensures InShape([i], [|elems|]) && RankOf([i], [|elems|]) == i
    {
      IndexInShape(i, [|elems|]);
    }
  }

  /** Indexing a stack gives back what was stacked there. */
  lemma IndexOfStacked(elems: seq<Elem>, i: Word)
    requires Stackable(elems) && 0 <= i < |elems|
    ensures var r := Index(View(Stacked(elems)), Int(i));
            r.Some? && if elems[0].View? && |elems[0].tensor.shape| > 0 then r.value.View? && Same(r.value.tensor, elems[i].tensor)
                       else if elems[0].View? then r.value == At(elems[i].tensor, [])
                       else r.value == elems[i]
  {
    var k: nat, t := i, Stacked(elems);
    assert Shaped(t) && t.shape[0] == |elems|;
    IndexFixesFirst(View(t), Int(i));
    ModShift(k, 0, |elems|);
    hide *;
    if elems[0].View? {
      StackedRow(elems, k);
    } else {
      StackedCell(elems, k);
    }
  }

  lemma StackedRow(elems: seq<Elem>, i: nat)
    requires Stackable(elems) && i < |elems| && elems[0].View?
    ensures var t, shape := Stacked(elems), elems[0].tensor.shape;
            && Shaped(t) && |t.shape| > 0 && Fixed(t, 0, i).Some? && Inside(elems[i].tensor) && elems[i].tensor.shape == shape
            && var r := Fixed(t, 0, i).value;
               if |shape| > 0 then r.View? && Same(r.tensor, elems[i].tensor) else InShape([], shape) && r == At(elems[i].tensor, [])
  {
    hide At, Fixed, Inside, Stacked;
    var t, shape := Stacked(elems), elems[0].tensor.shape;
    StackedAt(elems);
    InsideShaped(t);
    if |shape| > 0 {
      FixedRow(t, i, shape);
      var r := Fixed(t, 0, i).value.tensor;
      forall idx | InShape(idx, shape)
        ensures At(r, idx) == At(elems[i].tensor, idx)
      {
        assert InShape([i] + idx, t.shape) && At(t, [i] + idx) == At(elems[i].tensor, idx);
      }
    } else {
      FixedAt(t, 0, i);
      assert InShape([], shape) && [i] + [] == [i];
    }
  }

  lemma FixedRow(t: Tensor, i: nat, shape: seq<nat>)
    requires Inside(t) && |shape| > 0 && |t.shape| > 0 && t.shape == [t.shape[0]] + shape && i < t.shape[0]
    ensures Fixed(t, 0, i).Some? && Fixed(t, 0, i).value.View?
    ensures var r := Fixed(t, 0, i).value.tensor;
            Inside(r) && r.shape == shape && forall idx :: InShape(idx, shape) ==> InShape([i] + idx, t.shape) && At(r, idx) == At(t, [i] + idx)
  {
    FixedAt(t, 0, i);
    hide *;
    assert Without(t.shape, 0) == shape by {
      WithoutFirst(t.shape[0], shape);
    }
    forall idx | InShape(idx, shape)
      ensures With(idx, 0, i) == [i] + idx
    {
      WithFirst(idx, i);
    }
  }

  lemma WithoutFirst(n: nat, shape: seq<nat>)
    ensures Without([n] + shape, 0) == shape
  {
  }

  lemma WithFirst(idx: seq<nat>, i: nat)
    ensures With(idx, 0, i) == [i] + idx
  {
  }

  lemma InsideShaped(t: Tensor)
    requires Inside(t)
    ensures Shaped(t)
  {
  }

  lemma StackedCell(elems: seq<Elem>, i: nat)
    requires Stackable(elems) && i < |elems| && !elems[0].View?
    ensures Shaped(Stacked(elems)) && |Stacked(elems).shape| > 0 && Fixed(Stacked(elems), 0, i) == Some(elems[i])
  {
    hide At, Fixed, Inside, Stacked;
    StackedScalars(elems);
    InsideShaped(Stacked(elems));
    FixedAt(Stacked(elems), 0, i);
  }

  // ---- nothing ever reaches outside ---------------------------------------

  lemma NthGood(t: Tensor)
    requires Good(View(t))
    ensures forall m :: 0 <= m < Total(t.shape) ==> Good(Gathered(t)[m])
  {
    forall m | 0 <= m < Total(t.shape)
      ensures Good(Nth(t, m))
    {
      IndexInShape(m, t.shape);
    }
  }

  lemma TransposedGood(t: Tensor)
    requires Good(View(t))
    ensures Good(View(Transposed(t)))
  {
    TransposedAt(t);
  }

  lemma SlicesGood(a: Elem, axis: Elem, from: Elem, to: Elem)
    requires Good(a)
    ensures Slice(a, from, to).Some? ==> Good(Slice(a, from, to).value)
    ensures SliceAxis(a, axis, from, to).Some? ==> Good(SliceAxis(a, axis, from, to).value)
  {
    if Slice(a, from, to).Some? {
      SlicedAt(a.tensor, 0, from.value, to.value);
    }
    if SliceAxis(a, axis, from, to).Some? {
      SlicedAt(a.tensor, axis.value, from.value, to.value);
    }
  }

  lemma FixedGood(t: Tensor, axis: nat, i: nat)
    requires Good(View(t)) && axis < |t.shape| && i < t.shape[axis]
    ensures Fixed(t, axis, i).Some? && Good(Fixed(t, axis, i).value)
  {
    FixedAt(t, axis, i);
  }

  lemma JoinedGood(x: Tensor, y: Tensor)
    requires Good(View(x)) && Good(View(y)) && Joinable(x, y)
    ensures Good(View(Joined(x, y)))
  {
    JoinedAt(x, y);
    NthGood(x);
    NthGood(y);
  }

  lemma {:induction false} RowsGood(elems: seq<Elem>, shape: seq<nat>, k: nat)
    requires Alike(elems, shape) && k <= |elems| && forall i :: 0 <= i < |elems| ==> Good(elems[i])
    ensures forall j :: 0 <= j < |Rows(elems, shape, k)| ==> Good(Rows(elems, shape, k)[j])
    decreases k
  {
    if k > 0 {
      RowsGood(elems, shape, k - 1);
      NthGood(elems[k - 1].tensor);
    }
  }

  lemma StackedGood(elems: seq<Elem>)
    requires Stackable(elems) && forall i :: 0 <= i < |elems| ==> Good(elems[i])
    ensures Good(View(Stacked(elems)))
  {
    if |elems| > 0 && elems[0].View? {
      StackedAt(elems);
      RowsGood(elems, elems[0].tensor.shape, |elems|);
    } else {
      StackedScalars(elems);
    }
  }
}
