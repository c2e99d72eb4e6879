/** What the tensor built-ins make: views that share a buffer, and fresh tensors; each
    by what it holds at every index. */
module Views {
  import opened Common
  import opened Shapes
  import opened Tensors

  function AsTensor(e: Elem): Option<Tensor> {
    if e.View? && Shaped(e.tensor) then Some(e.tensor) else None
  }

  /** A non-negative integer; anything else faults. */
  function AsIndex(e: Elem): Option<nat> {
    if e.Int? && e.value >= 0 then Some(e.value) else None
  }

  // ---- transpose ----------------------------------------------------------

  function Transposed(t: Tensor): Tensor {
    Tensor(t.buf, t.off, Reverse(t.shape), Reverse(t.strides))
  }

  method Transpose(t: Tensor) returns (r: Tensor)
    requires Shaped(t)
    ensures r == Transposed(t)
  {
    var rank := |t.shape|;
    var d := new nat[2 * rank];
    for k := 0 to rank
      invariant forall i :: 0 <= i < k ==> d[i] == Reverse(t.shape)[i]
      invariant forall i :: rank <= i < rank + k ==> d[i] == Reverse(t.strides)[i - rank]
    {
      d[k], d[rank + k] := t.shape[rank - 1 - k], t.strides[rank - 1 - k];
    }
    r := Tensor(t.buf, t.off, d[..rank], d[rank..]);
    assert d[..rank] == Reverse(t.shape) && d[rank..] == Reverse(t.strides);
  }

  lemma TransposedPos(t: Tensor, idx: seq<nat>)
    requires Shaped(t) && InShape(idx, Transposed(t).shape)
    ensures InShape(Reverse(idx), t.shape) && Pos(Transposed(t), idx) == Pos(t, Reverse(idx))
  {
    FlatReverse(Reverse(idx), t.strides);
    ReverseTwice(idx);
  }

  /** A transpose stays inside, and holds what the tensor holds at the reversed index. */
  lemma TransposedAt(t: Tensor)
    requires Inside(t)
    ensures Inside(Transposed(t))
    ensures forall idx :: InShape(idx, Reverse(t.shape)) ==> InShape(Reverse(idx), t.shape) && At(Transposed(t), idx) == At(t, Reverse(idx))
  {
    forall idx | InShape(idx, Reverse(t.shape))
      ensures InShape(Reverse(idx), t.shape) && Pos(Transposed(t), idx) == Pos(t, Reverse(idx)) < |t.buf|
    {
      TransposedPos(t, idx);
    }
  }

  lemma TransposeUndoesItself(t: Tensor)
    ensures Transposed(Transposed(t)) == t
  {
    ReverseTwice(t.shape);
    ReverseTwice(t.strides);
  }

  // ---- slices -------------------------------------------------------------

  function Min(a: nat, b: nat): nat {
    if a < b then a else b
  }

  /** The range asked for, within an axis of length `n`. */
  function Clamp(lo: nat, hi: nat, n: nat): (r: (nat, nat))
    ensures r.0 <= r.1 <= n
  {
    var lo' := if lo > n then n else lo;
    var hi' := if hi < lo' then lo' else hi;
    (lo', if hi' > n then n else hi')
  }

  function Sliced(t: Tensor, axis: nat, lo: nat, hi: nat): Tensor
    requires Shaped(t) && axis < |t.shape|
  {
    var (lo', hi') := Clamp(lo, hi, t.shape[axis]);
    Tensor(t.buf, t.off + lo' * t.strides[axis], t.shape[axis := hi' - lo'], t.strides)
  }

  function Slice(a: Elem, from: Elem, to: Elem): Option<Elem> {
    var t, lo, hi := AsTensor(a), AsIndex(from), AsIndex(to);
    if t.None? || |t.value.shape| == 0 || lo.None? || hi.None? then None
    else Some(View(Sliced(t.value, 0, lo.value, hi.value)))
  }

  function SliceAxis(a: Elem, at: Elem, from: Elem, to: Elem): Option<Elem> {
    var t, axis, lo, hi := AsTensor(a), AsIndex(at), AsIndex(from), AsIndex(to);
    if t.None? || axis.None? || axis.value >= |t.value.shape| || lo.None? || hi.None? then None
    else Some(View(Sliced(t.value, axis.value, lo.value, hi.value)))
  }

  /** A slice stays inside, and holds the tensor's elements from `lo` on. */
  lemma SlicedAt(t: Tensor, axis: nat, lo: nat, hi: nat)
    requires Inside(t) && axis < |t.shape|
    ensures var s, from := Sliced(t, axis, lo, hi), Clamp(lo, hi, t.shape[axis]).0;
            && Inside(s) && |s.shape| == |t.shape| && (forall k :: 0 <= k < |t.shape| && k != axis ==> s.shape[k] == t.shape[k])
            && from == (if lo < t.shape[axis] then lo else t.shape[axis])
            && from + s.shape[axis] == (if hi < from then from else if hi < t.shape[axis] then hi else t.shape[axis])
            && forall idx :: InShape(idx, s.shape) ==>
                 InShape(idx[axis := idx[axis] + from], t.shape) && At(s, idx) == At(t, idx[axis := idx[axis] + from])
  {
    assert Sliced(t, axis, lo, hi).shape[axis] == Clamp(lo, hi, t.shape[axis]).1 - Clamp(lo, hi, t.shape[axis]).0;
    assert forall k :: 0 <= k < |t.shape| && k != axis ==> Sliced(t, axis, lo, hi).shape[k] == t.shape[k];
    hide Pos, Sliced;
    SlicedShape(t, axis, lo, hi);
    forall idx | InShape(idx, Sliced(t, axis, lo, hi).shape)
      ensures var moved := idx[axis := idx[axis] + Clamp(lo, hi, t.shape[axis]).0];
              InShape(moved, t.shape) && Pos(Sliced(t, axis, lo, hi), idx) == Pos(t, moved) < |t.buf|
    {
      SlicedPos(t, axis, lo, hi, idx);
    }
  }

  lemma SlicedShape(t: Tensor, axis: nat, lo: nat, hi: nat)
    requires Shaped(t) && axis < |t.shape|
    ensures var s := Sliced(t, axis, lo, hi); Shaped(s) && s.buf == t.buf && |s.shape| == |t.shape|
  {
  }

  lemma SlicedPos(t: Tensor, axis: nat, lo: nat, hi: nat, idx: seq<nat>)
    requires Shaped(t) && axis < |t.shape| && InShape(idx, Sliced(t, axis, lo, hi).shape)
    ensures var moved := idx[axis := idx[axis] + Clamp(lo, hi, t.shape[axis]).0];
            InShape(moved, t.shape) && Pos(Sliced(t, axis, lo, hi), idx) == Pos(t, moved)
  {
    hide Flat;
    var from := Clamp(lo, hi, t.shape[axis]).0;
    FlatShift(idx, t.strides, axis, from);
    assert idx[axis] < Sliced(t, axis, lo, hi).shape[axis];
    forall k | 0 <= k < |idx| && k != axis
      ensures idx[k] < t.shape[k]
    {
      assert idx[k] < Sliced(t, axis, lo, hi).shape[k];
    }
  }

  /** A slice of a slice is one slice. */
  lemma SliceOfSlice(t: Tensor, axis: nat, lo1: nat, hi1: nat, lo2: nat, hi2: nat)
    requires Shaped(t) && axis < |t.shape|
    ensures var (a, b) := Clamp(lo1, hi1, t.shape[axis]);
            Sliced(Sliced(t, axis, lo1, hi1), axis, lo2, hi2) == Sliced(t, axis, a + Min(lo2, b - a), Min(a + hi2, b))
  {
    var (a, b) := Clamp(lo1, hi1, t.shape[axis]);
    var (c, d) := Clamp(lo2, hi2, b - a);
    var (e, f) := Clamp(a + Min(lo2, b - a), Min(a + hi2, b), t.shape[axis]);
    assert e == a + c && f == a + d;
    assert a * t.strides[axis] + c * t.strides[axis] == e * t.strides[axis];
  }

  /** Slices along different axes commute. */
  lemma SlicesCommute(t: Tensor, x: nat, lo1: nat, hi1: nat, y: nat, lo2: nat, hi2: nat)
    requires Shaped(t) && x < |t.shape| && y < |t.shape| && x != y
    ensures Sliced(Sliced(t, x, lo1, hi1), y, lo2, hi2) == Sliced(Sliced(t, y, lo2, hi2), x, lo1, hi1)
  {
    var (a, b) := Clamp(lo1, hi1, t.shape[x]);
    var (c, d) := Clamp(lo2, hi2, t.shape[y]);
    assert t.shape[x := b - a][y := d - c] == t.shape[y := d - c][x := b - a];
  }

  /** Slicing a transpose is the transpose of a slice along the opposite axis. */
  lemma SliceOfTranspose(t: Tensor, axis: nat, lo: nat, hi: nat)
    requires Shaped(t) && axis < |t.shape|
    ensures Sliced(Transposed(t), axis, lo, hi) == Transposed(Sliced(t, |t.shape| - 1 - axis, lo, hi))
  {
    var s := Sliced(t, |t.shape| - 1 - axis, lo, hi);
    assert Sliced(Transposed(t), axis, lo, hi).shape == Reverse(s.shape);
  }

  // ---- indexing -----------------------------------------------------------

  /** The remainder of a division that truncates towards zero. */
  function TruncRem(a: int, b: int): int
    requires b > 0
  {
    if a >= 0 then a % b else -((-a) % b)
  }

  /** An index wrapped into an axis of length `n`. */
  function WrapIndex(i: int, n: nat): nat
    requires n > 0
  {
    if 0 <= i < n then i else TruncRem(TruncRem(i, n) + n, n)
  }

  lemma NegMod(i: int, n: int)
    requires i >= 0 && n > 0
    ensures (-i) % n == if i % n == 0 then 0 else n - i % n
  {
    var q, r := i / n, i % n;
    assert i == q * n + r;
    if r == 0 {
      ModShift(0, -q, n);
    } else {
      assert -i == (-q - 1) * n + (n - r);
      ModShift(n - r, -q - 1, n);
    }
  }

  lemma ModShift(r: int, q: int, n: int)
    requires 0 <= r < n
    ensures (q * n + r) % n == r
  {
    var m := q * n + r;
    assert m == (m / n) * n + m % n;
    MulMono(m / n + 1, q, n);
    MulMono(q + 1, m / n, n);
  }

  /** Indexing is modular: the result is the place congruent to `i`. */
  lemma WrapsModulo(i: int, n: nat)
    requires n > 0
    ensures WrapIndex(i, n) == i % n < n
  {
    if i < 0 {
      var c := (-i) % n;
      NegMod(-i, n);
      assert WrapIndex(i, n) == (n - c) % n;
      if c == 0 {
        ModShift(0, 1, n);
      } else {
        ModShift(n - c, 0, n);
      }
    } else if i >= n {
      var c := i % n;
      assert WrapIndex(i, n) == (c + n) % n;
      ModShift(c, 1, n);
    } else {
      ModShift(i, 0, n);
    }
  }

  function Cell(t: Tensor, flat: nat): Option<Elem> {
    if flat < |t.buf| then Some(t.buf[flat]) else None
  }

  /** What remains at a position once the first `k` axes are fixed. */
  function Sub(t: Tensor, base: nat, k: nat): Option<Elem>
    requires Shaped(t)
  {
    if k >= |t.shape| then Cell(t, base) else Some(View(Tensor(t.buf, base, t.shape[k..], t.strides[k..])))
  }

  function Index(a: Elem, at: Elem): Option<Elem> {
    var t := AsTensor(a);
    if t.None? || |t.value.shape| == 0 || t.value.shape[0] == 0 || !at.Int? then None
    else Sub(t.value, t.value.off + WrapIndex(at.value, t.value.shape[0]) * t.value.strides[0], 1)
  }

  /** An axis fixed at one of its indices. */
  function Fixed(t: Tensor, axis: nat, i: nat): Option<Elem>
    requires Shaped(t) && axis < |t.shape|
  {
    var base := t.off + i * t.strides[axis];
    if |t.shape| == 1 then Cell(t, base) else Some(View(Tensor(t.buf, base, Without(t.shape, axis), Without(t.strides, axis))))
  }

  function IndexedAxis(a: Elem, at: Elem, i: Elem): Option<Elem> {
    var t, axis := AsTensor(a), AsIndex(at);
    if t.None? || axis.None? || axis.value >= |t.value.shape| || t.value.shape[axis.value] == 0 || !i.Int? then None
    else Fixed(t.value, axis.value, WrapIndex(i.value, t.value.shape[axis.value]))
  }

  /** The loop that leaves the axis out makes the view with the axis fixed. */
  method IndexAxis(a: Elem, where: Elem, at: Elem) returns (r: Option<Elem>)
    ensures r == IndexedAxis(a, where, at)
  {
    var found, index := AsTensor(a), AsIndex(where);
    if found.None? || index.None? || index.value >= |found.value.shape| {
      return None;
    }
    var t, axis := found.value, index.value;
    var rank, n := |t.shape|, t.shape[axis];
    if n == 0 || !at.Int? {
      return None;
    }
    var base := t.off + WrapIndex(at.value, n) * t.strides[axis];
    if rank == 1 {
      return Cell(t, base);
    }
    var shape, strides := DropAxis(t, axis);
    r := Some(View(Tensor(t.buf, base, shape[..], strides[..])));
  }

  /** The first `k` of a sequence, without the one at `axis`. */
  function DropTo(s: seq<nat>, axis: nat, k: nat): (r: seq<nat>)
    requires axis < |s| && k <= |s|
    ensures |r| == if k <= axis then k else k - 1
  {
    if k <= axis then s[..k] else s[..axis] + s[axis + 1..k]
  }

  lemma DropNext(s: seq<nat>, axis: nat, k: nat)
    requires axis < |s| && k < |s|
    ensures DropTo(s, axis, k + 1) == if k == axis then DropTo(s, axis, k) else DropTo(s, axis, k) + [s[k]]
  {
  }

  /** The shape and the strides without an axis. */
  method DropAxis(t: Tensor, axis: nat) returns (shape: array<nat>, strides: array<nat>)
    requires Shaped(t) && axis < |t.shape|
    ensures fresh(shape) && fresh(strides)
    ensures shape[..] == Without(t.shape, axis) && strides[..] == Without(t.strides, axis)
  {
    var n := |t.shape| - 1;
    shape, strides := new nat[n], new nat[n];
    var j := 0;
    for k := 0 to |t.shape|
      invariant j == if k <= axis then k else k - 1
      invariant shape[..j] == DropTo(t.shape, axis, k) && strides[..j] == DropTo(t.strides, axis, k)
    {
      DropNext(t.shape, axis, k);
      DropNext(t.strides, axis, k);
      hide DropTo, Shaped;
      if k != axis {
        Put(shape, j, t.shape[k]);
        Put(strides, j, t.strides[k]);
        j := j + 1;
      }
    }
    DropAll(t.shape, axis);
    DropAll(t.strides, axis);
    assert shape[..n] == shape[..] && strides[..n] == strides[..];
  }

  method Put(d: array<nat>, j: nat, x: nat)
    requires j < d.Length
    modifies d
    ensures d[..j + 1] == old(d[..j]) + [x]
  {
    d[j] := x;
  }

  lemma DropAll(s: seq<nat>, axis: nat)
    requires axis < |s|
    ensures DropTo(s, axis, |s|) == Without(s, axis) && |Without(s, axis)| == |s| - 1
  {
  }

  function With<T>(s: seq<T>, at: nat, x: T): seq<T>
    requires at <= |s|
  {
    s[..at] + [x] + s[at..]
  }

  /** What fixing an axis leaves: a view inside the buffer that holds the tensor's
      elements with the index put back, or, of a vector, the element. */
  lemma FixedAt(t: Tensor, axis: nat, i: nat)
    requires Inside(t) && axis < |t.shape| && i < t.shape[axis]
    ensures Fixed(t, axis, i).Some?
    ensures var r := Fixed(t, axis, i).value;
            if |t.shape| == 1 then InShape([i], t.shape) && r == At(t, [i])
            else
              && r.View? && Inside(r.tensor) && r.tensor.shape == Without(t.shape, axis)
              && forall idx :: InShape(idx, r.tensor.shape) ==> InShape(With(idx, axis, i), t.shape) && At(r.tensor, idx) == At(t, With(idx, axis, i))
  {
    hide Flat;
    if |t.shape| == 1 {
      OnePos(t, i);
      assert InShape([i], t.shape);
    } else {
      var r := Fixed(t, axis, i).value.tensor;
      forall idx | InShape(idx, r.shape)
        ensures InShape(With(idx, axis, i), t.shape) && Pos(r, idx) == Pos(t, With(idx, axis, i))
      {
        FixedPos(t, axis, i, idx);
      }
    }
  }

  lemma FixedPos(t: Tensor, axis: nat, i: nat, idx: seq<nat>)
    requires Shaped(t) && axis < |t.shape| && i < t.shape[axis] && InShape(idx, Without(t.shape, axis))
    ensures InShape(With(idx, axis, i), t.shape)
    ensures Pos(t, With(idx, axis, i)) == t.off + i * t.strides[axis] + Flat(idx, Without(t.strides, axis))
  {
    WithInShape(t.shape, axis, i, idx);
    FlatAt(With(idx, axis, i), t.strides, axis);
  }

  lemma WithInShape(shape: seq<nat>, axis: nat, i: nat, idx: seq<nat>)
    requires axis < |shape| && i < shape[axis] && InShape(idx, Without(shape, axis))
    ensures InShape(With(idx, axis, i), shape) && Without(With(idx, axis, i), axis) == idx && With(idx, axis, i)[axis] == i
  {
    assert forall k :: 0 <= k < |idx| ==> idx[k] < Without(shape, axis)[k];
  }

  /** Indexing fixes the first axis. */
  lemma IndexFixesFirst(a: Elem, at: Elem)
    ensures Index(a, at) == (var t := AsTensor(a);
                             if t.None? || |t.value.shape| == 0 || t.value.shape[0] == 0 || !at.Int? then None
                             else Fixed(t.value, 0, at.value % t.value.shape[0]))
  {
    var found := AsTensor(a);
    if !(found.None? || |found.value.shape| == 0 || found.value.shape[0] == 0 || !at.Int?) {
      var t := found.value;
      WrapsModulo(at.value, t.shape[0]);
      assert Without(t.shape, 0) == t.shape[1..] && Without(t.strides, 0) == t.strides[1..];
    }
  }
}
