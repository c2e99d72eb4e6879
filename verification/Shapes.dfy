/** Index arithmetic of strided tensors: positions in a buffer, and the row-major order
    of the indices of a shape. */
module Shapes {
  function Init<T>(s: seq<T>): seq<T>
    requires |s| > 0
  {
    s[..|s| - 1]
  }

  function Last<T>(s: seq<T>): T
    requires |s| > 0
  {
    s[|s| - 1]
  }

  /** The number of indices of a shape. */
  function Total(shape: seq<nat>): nat {
    if |shape| == 0 then 1 else Total(Init(shape)) * Last(shape)
  }

  predicate InShape(idx: seq<nat>, shape: seq<nat>) {
    |idx| == |shape| && forall k :: 0 <= k < |idx| ==> idx[k] < shape[k]
  }

  /** The buffer position of an index, relative to the tensor's own. */
  function Flat(idx: seq<nat>, strides: seq<nat>): nat
    requires |idx| == |strides|
  {
    if |idx| == 0 then 0 else Flat(Init(idx), Init(strides)) + Last(idx) * Last(strides)
  }

  /** The place of an index in row-major order, the last axis running fastest. */
  function RankOf(idx: seq<nat>, shape: seq<nat>): nat
    requires |idx| == |shape|
  {
    if |idx| == 0 then 0 else RankOf(Init(idx), Init(shape)) * Last(shape) + Last(idx)
  }

  /** The index at a place in row-major order. */
  function IndexOf(m: nat, shape: seq<nat>): (idx: seq<nat>)
    requires m < Total(shape)
    ensures |idx| == |shape|
    decreases |shape|
  {
    if |shape| == 0 then []
    else
      DivBelow(m, Total(Init(shape)), Last(shape));
      IndexOf(m / Last(shape), Init(shape)) + [m % Last(shape)]
  }

  lemma {:induction false} IndexInShape(m: nat, shape: seq<nat>)
    requires m < Total(shape)
    ensures InShape(IndexOf(m, shape), shape) && RankOf(IndexOf(m, shape), shape) == m
    decreases |shape|
  {
    if |shape| > 0 {
      hide *;
      IndexLast(m, shape);
      IndexInShape(m / Last(shape), Init(shape));
      IndexJoined(m, m / Last(shape), m % Last(shape), shape);
    }
  }

  lemma IndexJoined(m: nat, q: nat, r: nat, shape: seq<nat>)
    requires |shape| > 0 && m < Total(shape) && q < Total(Init(shape)) && r < Last(shape) && m == q * Last(shape) + r
    requires IndexOf(m, shape) == IndexOf(q, Init(shape)) + [r]
    requires InShape(IndexOf(q, Init(shape)), Init(shape)) && RankOf(IndexOf(q, Init(shape)), Init(shape)) == q
    ensures InShape(IndexOf(m, shape), shape) && RankOf(IndexOf(m, shape), shape) == m
  {
    hide IndexOf, Total;
    var front := IndexOf(q, Init(shape));
    assert Init(front + [r]) == front && Last(front + [r]) == r;
    RankLast(front + [r], shape);
  }

  lemma DivBelow(m: nat, a: nat, b: nat)
    requires m < a * b
    ensures b > 0 && 0 <= m / b < a && m == (m / b) * b + m % b && 0 <= m % b < b
  {
  }

  lemma DivUnique(q: nat, r: nat, b: nat)
    requires r < b
    ensures (q * b + r) / b == q && (q * b + r) % b == r
  {
    var m := q * b + r;
    assert m == (m / b) * b + m % b;
    MulMono(m / b + 1, q, b);
    MulMono(q + 1, m / b, b);
  }

  lemma MulMono(x: int, y: int, b: nat)
    ensures x <= y ==> x * b <= y * b
  {
  }

  /** Counting up by one. */
  lemma DivNext(m: nat, b: nat)
    requires b > 0
    ensures m % b + 1 < b ==> (m + 1) / b == m / b && (m + 1) % b == m % b + 1
    ensures m % b + 1 >= b ==> (m + 1) / b == m / b + 1 && (m + 1) % b == 0
  {
    var q, r := m / b, m % b;
    assert m == q * b + r;
    if r + 1 < b {
      DivUnique(q, r + 1, b);
    } else {
      assert m + 1 == (q + 1) * b + 0;
      DivUnique(q + 1, 0, b);
    }
  }

  // One step of each recursion, by its last axis.

  lemma TotalLast(shape: seq<nat>)
    requires |shape| > 0
    ensures Total(shape) == Total(Init(shape)) * Last(shape)
  {
  }

  lemma RankLast(idx: seq<nat>, shape: seq<nat>)
    requires |idx| == |shape| > 0
    ensures RankOf(idx, shape) == RankOf(Init(idx), Init(shape)) * Last(shape) + Last(idx)
  {
  }

  lemma IndexLast(m: nat, shape: seq<nat>)
    requires |shape| > 0 && m < Total(shape)
    ensures Last(shape) > 0 && 0 <= m / Last(shape) < Total(Init(shape))
    ensures IndexOf(m, shape) == IndexOf(m / Last(shape), Init(shape)) + [m % Last(shape)]
    ensures 0 <= m % Last(shape) < Last(shape) && m == (m / Last(shape)) * Last(shape) + m % Last(shape)
  {
    DivBelow(m, Total(Init(shape)), Last(shape));
  }

  lemma InShapeLast(idx: seq<nat>, shape: seq<nat>)
    requires |shape| > 0 && InShape(idx, shape)
    ensures |idx| == |shape| && InShape(Init(idx), Init(shape)) && Last(idx) < Last(shape) && idx == Init(idx) + [Last(idx)]
  {
  }

  lemma ProductBelow(q: nat, r: nat, t: nat, b: nat)
    requires q < t && r < b
    ensures q * b + r < t * b
  {
    MulMono(q + 1, t, b);
  }

  /** Row-major order numbers the indices of a shape, each once. */
  lemma {:induction false} RankInverse(idx: seq<nat>, shape: seq<nat>)
    requires InShape(idx, shape)
    ensures |idx| == |shape| && RankOf(idx, shape) < Total(shape) && IndexOf(RankOf(idx, shape), shape) == idx
    decreases |shape|
  {
    if |shape| > 0 {
      hide *;
      InShapeLast(idx, shape);
      InitShorter(shape);
      RankInverse(Init(idx), Init(shape));
      RankBack(idx, shape);
    }
  }

  lemma InitShorter<T>(s: seq<T>)
    requires |s| > 0
    ensures |Init(s)| == |s| - 1
  {
  }

  lemma RankBack(idx: seq<nat>, shape: seq<nat>)
    requires |idx| == |shape| > 0 && Last(idx) < Last(shape) && idx == Init(idx) + [Last(idx)] && |Init(idx)| == |Init(shape)|
    requires RankOf(Init(idx), Init(shape)) < Total(Init(shape)) && IndexOf(RankOf(Init(idx), Init(shape)), Init(shape)) == Init(idx)
    ensures RankOf(idx, shape) < Total(shape) && IndexOf(RankOf(idx, shape), shape) == idx
  {
    hide *;
    var q, r, b := RankOf(Init(idx), Init(shape)), Last(idx), Last(shape);
    RankLast(idx, shape);
    TotalLast(shape);
    ProductBelow(q, r, Total(Init(shape)), b);
    DivUnique(q, r, b);
    IndexLast(RankOf(idx, shape), shape);
  }

  // ---- the front of a shape -----------------------------------------------

  lemma {:induction false} TotalFirst(shape: seq<nat>)
    requires |shape| > 0
    ensures Total(shape) == shape[0] * Total(shape[1..])
    decreases |shape|
  {
    if |shape| > 1 {
      TotalFirst(Init(shape));
      assert Init(shape)[1..] == Init(shape[1..]) && Last(shape[1..]) == Last(shape);
      Assoc(shape[0], Total(Init(shape[1..])), Last(shape));
    } else {
      assert Init(shape) == [] && shape[1..] == [];
    }
  }

  lemma Assoc(a: int, b: int, c: int)
    ensures a * b * c == a * (b * c)
  {
  }

  lemma {:induction false} RankFirst(idx: seq<nat>, shape: seq<nat>)
    requires |idx| == |shape| > 0
    ensures RankOf(idx, shape) == idx[0] * Total(shape[1..]) + RankOf(idx[1..], shape[1..])
    decreases |idx|
  {
    if |idx| > 1 {
      RankFirst(Init(idx), Init(shape));
      assert Init(shape)[1..] == Init(shape[1..]) && Last(shape[1..]) == Last(shape);
      assert Init(idx)[1..] == Init(idx[1..]) && Last(idx[1..]) == Last(idx);
      Spread(idx[0], Total(Init(shape[1..])), RankOf(Init(idx[1..]), Init(shape[1..])), Last(shape));
    } else {
      assert Init(idx) == [] && idx[1..] == [] && shape[1..] == [];
    }
  }

  lemma Spread(a: int, t: int, r: int, s: int)
    ensures (a * t + r) * s == a * (t * s) + r * s
  {
  }

  /** The place of an index by its first coordinate and the rest. */
  lemma RankSplit(i: nat, rest: seq<nat>, n: nat, shape: seq<nat>)
    requires |rest| == |shape|
    ensures RankOf([i] + rest, [n] + shape) == i * Total(shape) + RankOf(rest, shape)
    ensures Total([n] + shape) == n * Total(shape)
  {
    RankFirst([i] + rest, [n] + shape);
    TotalFirst([n] + shape);
    assert ([i] + rest)[1..] == rest && ([n] + shape)[1..] == shape;
  }

  // ---- positions ----------------------------------------------------------

  lemma {:induction false} FlatSplit(a: seq<nat>, b: seq<nat>, sa: seq<nat>, sb: seq<nat>)
    requires |a| == |sa| && |b| == |sb|
    ensures Flat(a + b, sa + sb) == Flat(a, sa) + Flat(b, sb)
    decreases |b|
  {
    if |b| > 0 {
      FlatSplit(a, Init(b), sa, Init(sb));
      assert Init(a + b) == a + Init(b) && Init(sa + sb) == sa + Init(sb);
    } else {
      assert a + b == a && sa + sb == sa;
    }
  }

  lemma FlatOne(i: nat, s: nat)
    ensures Flat([i], [s]) == i * s
  {
    assert Init([i]) == [] && Init([s]) == [];
  }

  function Without<T>(s: seq<T>, a: nat): seq<T>
    requires a < |s|
  {
    s[..a] + s[a + 1..]
  }

  /** The contribution of one axis. */
  lemma FlatAt(idx: seq<nat>, strides: seq<nat>, a: nat)
    requires a < |idx| == |strides|
    ensures Flat(idx, strides) == Flat(Without(idx, a), Without(strides, a)) + idx[a] * strides[a]
  {
    assert idx == idx[..a] + ([idx[a]] + idx[a + 1..]) && strides == strides[..a] + ([strides[a]] + strides[a + 1..]);
    FlatSplit(idx[..a], [idx[a]] + idx[a + 1..], strides[..a], [strides[a]] + strides[a + 1..]);
    FlatSplit([idx[a]], idx[a + 1..], [strides[a]], strides[a + 1..]);
    FlatSplit(idx[..a], idx[a + 1..], strides[..a], strides[a + 1..]);
    FlatOne(idx[a], strides[a]);
  }

  lemma FlatShift(idx: seq<nat>, strides: seq<nat>, a: nat, more: nat)
    requires a < |idx| == |strides|
    ensures Flat(idx[a := idx[a] + more], strides) == Flat(idx, strides) + more * strides[a]
  {
    hide Flat;
    FlatAt(idx, strides, a);
    FlatAt(idx[a := idx[a] + more], strides, a);
    assert (idx[a] + more) * strides[a] == idx[a] * strides[a] + more * strides[a];
    assert Without(idx[a := idx[a] + more], a) == Without(idx, a);
  }

  function Reverse<T>(s: seq<T>): (r: seq<T>)
    ensures |r| == |s|
  {
    seq(|s|, k requires 0 <= k < |s| => s[|s| - 1 - k])
  }

  lemma ReverseTwice<T>(s: seq<T>)
    ensures Reverse(Reverse(s)) == s
  {
  }

  lemma {:induction false} FlatReverse(idx: seq<nat>, strides: seq<nat>)
    requires |idx| == |strides|
    ensures Flat(Reverse(idx), Reverse(strides)) == Flat(idx, strides)
    decreases |idx|
  {
    if |idx| > 0 {
      FlatReverse(Init(idx), Init(strides));
      assert Reverse(idx) == [Last(idx)] + Reverse(Init(idx)) && Reverse(strides) == [Last(strides)] + Reverse(Init(strides));
      FlatSplit([Last(idx)], Reverse(Init(idx)), [Last(strides)], Reverse(Init(strides)));
      FlatOne(Last(idx), Last(strides));
    } else {
      assert Reverse(idx) == idx && Reverse(strides) == strides;
    }
  }

  // ---- contiguous strides -------------------------------------------------

  /** The strides of a contiguous tensor: the indices each axis steps over. */
  function RowStrides(shape: seq<nat>): (r: seq<nat>)
    ensures |r| == |shape|
  {
    seq(|shape|, k requires 0 <= k < |shape| => Total(shape[k + 1..]))
  }

  function Scale(strides: seq<nat>, c: nat): (r: seq<nat>)
    ensures |r| == |strides|
  {
    seq(|strides|, k requires 0 <= k < |strides| => strides[k] * c)
  }

  lemma {:induction false} FlatScale(idx: seq<nat>, strides: seq<nat>, c: nat)
    requires |idx| == |strides|
    ensures Flat(idx, Scale(strides, c)) == Flat(idx, strides) * c
    decreases |idx|
  {
    if |idx| > 0 {
      FlatScale(Init(idx), Init(strides), c);
      assert Init(Scale(strides, c)) == Scale(Init(strides), c);
      assert Last(idx) * (Last(strides) * c) == Last(idx) * Last(strides) * c;
    }
  }

  /** With contiguous strides, positions are places in row-major order. */
  lemma {:induction false} FlatIsRank(idx: seq<nat>, shape: seq<nat>)
    requires |idx| == |shape|
    ensures Flat(idx, RowStrides(shape)) == RankOf(idx, shape)
    decreases |idx|
  {
    if |idx| > 0 {
      var n := |shape| - 1;
      forall k | 0 <= k < n
        ensures RowStrides(shape)[k] == RowStrides(Init(shape))[k] * Last(shape)
      {
        assert Init(shape[k + 1..]) == Init(shape)[k + 1..] && Last(shape[k + 1..]) == Last(shape);
      }
      assert Init(RowStrides(shape)) == Scale(RowStrides(Init(shape)), Last(shape));
      FlatScale(Init(idx), RowStrides(Init(shape)), Last(shape));
      FlatIsRank(Init(idx), Init(shape));
      assert shape[n + 1..] == [];
    }
  }

  /** The total of a shape, one axis at a time. */
  method CountTotal(shape: seq<nat>) returns (total: nat)
    ensures total == Total(shape)
  {
    total := 1;
    for k := 0 to |shape|
      invariant total == Total(shape[..k])
    {
      assert Init(shape[..k + 1]) == shape[..k];
      total := total * shape[k];
    }
    assert shape[..|shape|] == shape;
  }

  /** The strides of a contiguous tensor, filled in from the last axis. */
  method FillRowMajor(shape: seq<nat>, out: array<nat>) returns (total: nat)
    requires out.Length >= |shape|
    modifies out
    ensures total == Total(shape) && out[..|shape|] == RowStrides(shape)
    ensures forall k :: |shape| <= k < out.Length ==> out[k] == old(out[k])
  {
    total := 1;
    var k := |shape|;
    assert shape[|shape|..] == [];
    while k > 0
      invariant 0 <= k <= |shape| && total == Total(shape[k..])
      invariant forall i :: k <= i < |shape| ==> out[i] == RowStrides(shape)[i]
      invariant forall i :: |shape| <= i < out.Length ==> out[i] == old(out[i])
    {
      k := k - 1;
      out[k] := total;
      assert shape[k..][1..] == shape[k + 1..];
      TotalFirst(shape[k..]);
      total := total * shape[k];
    }
    assert shape[0..] == shape;
  }

  // ---- the odometer -------------------------------------------------------

  /** The next index in row-major order, coming round to the first after the last. */
  function Tick(idx: seq<nat>, shape: seq<nat>): (r: seq<nat>)
    requires |idx| == |shape|
    ensures |r| == |idx|
  {
    if |idx| == 0 then []
    else if Last(idx) + 1 < Last(shape) then Init(idx) + [Last(idx) + 1]
    else Tick(Init(idx), Init(shape)) + [0]
  }

  lemma {:induction false} TickIsNext(m: nat, shape: seq<nat>)
    requires m + 1 < Total(shape)
    ensures Tick(IndexOf(m, shape), shape) == IndexOf(m + 1, shape)
    decreases |shape|
  {
    if |shape| > 0 {
      var b := Last(shape);
      DivBelow(m, Total(Init(shape)), b);
      DivBelow(m + 1, Total(Init(shape)), b);
      DivNext(m, b);
      assert Init(IndexOf(m, shape)) == IndexOf(m / b, Init(shape));
      if m % b + 1 >= b {
        TickIsNext(m / b, Init(shape));
      }
    }
  }

  lemma TickLast(idx: seq<nat>, shape: seq<nat>, n: nat)
    requires |idx| == |shape| && n < |idx|
    ensures Tick(idx[..n + 1], shape[..n + 1]) ==
            if idx[n] + 1 < shape[n] then idx[..n] + [idx[n] + 1] else Tick(idx[..n], shape[..n]) + [0]
  {
    assert Init(idx[..n + 1]) == idx[..n] && Init(shape[..n + 1]) == shape[..n];
  }

  /** One wheel: it turns, or comes round to zero and carries. */
  method TurnWheel(idx: array<nat>, k: nat, size: nat) returns (done: bool)
    requires k < idx.Length
    modifies idx
    ensures done <==> old(idx[k]) + 1 < size
    ensures idx[..] == old(idx[..])[k := if done then old(idx[k]) + 1 else 0]
  {
    idx[k] := idx[k] + 1;
    done := idx[k] < size;
    if !done {
      idx[k] := 0;
    }
  }

  /** What is left to turn, when the wheels from `k` on have come round to `tail`. */
  ghost predicate Turning(start: seq<nat>, shape: seq<nat>, k: nat, cur: seq<nat>, tail: seq<nat>) {
    |start| == |shape| && k <= |start| && cur == start[..k] + tail && Tick(start, shape) == Tick(start[..k], shape[..k]) + tail
  }

  lemma TurnOne(start: seq<nat>, shape: seq<nat>, k: nat, cur: seq<nat>, tail: seq<nat>)
    requires k > 0 && Turning(start, shape, k, cur, tail)
    ensures k <= |cur| && cur[k - 1] == start[k - 1]
    ensures if cur[k - 1] + 1 < shape[k - 1] then cur[k - 1 := cur[k - 1] + 1] == Tick(start, shape)
            else Turning(start, shape, k - 1, cur[k - 1 := 0], [0] + tail)
  {
    var n := k - 1;
    TickLast(start, shape, n);
    hide Tick;
    assert start[..k] == start[..n] + [start[n]];
    if start[n] + 1 < shape[n] {
      assert cur[n := start[n] + 1] == start[..n] + [start[n] + 1] + tail;
    } else {
      assert cur[n := 0] == start[..n] + ([0] + tail);
      assert Tick(start[..n], shape[..n]) + [0] + tail == Tick(start[..n], shape[..n]) + ([0] + tail);
    }
  }

  /** Step an odometer in place. */
  method StepOdometer(idx: array<nat>, shape: seq<nat>)
    requires idx.Length == |shape|
    modifies idx
    ensures idx[..] == Tick(old(idx[..]), shape)
  {
    var k, done := |shape|, false;
    ghost var start, tail: seq<nat> := idx[..], [];
    assert start[..k] == start && shape[..k] == shape;
    assert Turning(start, shape, k, idx[..], tail);
    hide *;
    while k > 0 && !done
      invariant 0 <= k <= |shape|
      invariant if done then idx[..] == Tick(start, shape) else Turning(start, shape, k, idx[..], tail)
      decreases k, !done
    {
      TurnOne(start, shape, k, idx[..], tail);
      k := k - 1;
      done := TurnWheel(idx, k, shape[k]);
      tail := [0] + tail;
    }
    if !done {
      AllTurned(start, shape, idx[..], tail);
    }
  }

  lemma AllTurned(start: seq<nat>, shape: seq<nat>, cur: seq<nat>, tail: seq<nat>)
    requires Turning(start, shape, 0, cur, tail)
    ensures cur == Tick(start, shape)
  {
    assert start[..0] == [] && shape[..0] == [];
    NoTick();
    assert [] + tail == tail;
  }

  lemma NoTick()
    ensures Tick([], []) == []
  {
  }

  lemma {:induction false} FirstIndex(shape: seq<nat>)
    requires Total(shape) > 0
    ensures forall k :: 0 <= k < |shape| ==> IndexOf(0, shape)[k] == 0
    decreases |shape|
  {
    if |shape| > 0 {
      DivBelow(0, Total(Init(shape)), Last(shape));
      FirstIndex(Init(shape));
    }
  }
}
