/** The dot kernel: the unboxed integer loop, and the generic fold it stands for. */
module Dots {
  import opened Common
  import opened Shapes
  import opened Tensors
  import opened Views
  import opened Stacking

  /** An operation handed to a kernel: a bare integer intrinsic, or anything else. */
  datatype Op = IAdd | IMul | Closure(id: nat)

  /** What applying any other operation, or an intrinsic to other operands, answers. */
  type Calls = (Op, Elem, Elem) -> Option<Elem>

  // ---- machine integers ---------------------------------------------------

  /** The 64-bit integer congruent to `n`. */
  function Wrap(n: int): Word {
    var m := n % WORDS;
    if m < WORDS / 2 then m else m - WORDS
  }

  lemma WrapSame(a: int, b: int, k: int)
    requires a == b + WORDS * k
    ensures a % WORDS == b % WORDS && Wrap(a) == Wrap(b)
  {
  }

  lemma WrapCongruent(n: int) returns (k: int)
    ensures Wrap(n) == n + WORDS * k
  {
    k := if n % WORDS < WORDS / 2 then -(n / WORDS) else -(n / WORDS) - 1;
  }

  lemma WrapOfWord(n: Word)
    ensures Wrap(n) == n
  {
  }

  /** Adding wrapped integers and wrapping is wrapping the sum. */
  lemma WrapSum(a: int, b: int)
    ensures Wrap(Wrap(a) + Wrap(b)) == Wrap(a + b)
  {
    var j := WrapCongruent(a);
    var k := WrapCongruent(b);
    WrapSame(Wrap(a) + Wrap(b), a + b, j + k);
  }

  /** Multiplying residues is multiplying, modulo the word size. */
  lemma ResidueProduct(p: int, q: int)
    ensures exists k :: (p % WORDS) * (q % WORDS) == p * q + WORDS * k
  {
    var a, b := p / WORDS, q / WORDS;
    var r, s := p % WORDS, q % WORDS;
    assert p == WORDS * a + r && q == WORDS * b + s;
    Expand(WORDS, a, r, b, s);
    assert r * s == p * q + WORDS * -(WORDS * (a * b) + a * s + b * r);
  }

  lemma Expand(w: int, a: int, r: int, b: int, s: int)
    ensures (w * a + r) * (w * b + s) == r * s + w * (w * (a * b) + a * s + b * r)
  {
    assert (w * a) * (w * b) == w * (w * (a * b));
    assert (w * a) * s == w * (a * s) && r * (w * b) == w * (b * r);
  }

  // ---- lanes --------------------------------------------------------------

  /** One operand of a dot: element `i` is what remains of `t` at position
      `base + (i mod len) * step` once the first `k` axes are fixed. */
  datatype Lane = Lane(t: Tensor, base: nat, step: nat, len: nat, k: nat)

  function Spot(l: Lane, i: nat): nat
    requires l.len > 0
  {
    l.base + (if i < l.len then i else i % l.len) * l.step
  }

  function LaneAt(l: Lane, i: nat): Option<Elem>
    requires Shaped(l.t) && l.len > 0
  {
    Sub(l.t, Spot(l, i), l.k)
  }

  function Apply2(calls: Calls, f: Op, x: Elem, y: Elem): Option<Elem> {
    if f == IAdd && x.Int? && y.Int? then Some(Int(Wrap(x.value + y.value)))
    else if f == IMul && x.Int? && y.Int? then Some(Int(Wrap(x.value * y.value)))
    else calls(f, x, y)
  }

  /** `zero` plus the first `n` products, from the left. */
  function Fold(calls: Calls, add: Op, mul: Op, zero: Elem, x: Lane, y: Lane, n: nat): Option<Elem>
    requires Shaped(x.t) && Shaped(y.t) && (n > 0 ==> x.len > 0 && y.len > 0)
  {
    if n == 0 then Some(zero)
    else
      var acc, p, q := Fold(calls, add, mul, zero, x, y, n - 1), LaneAt(x, n - 1), LaneAt(y, n - 1);
      if acc.None? || p.None? || q.None? then None
      else
        var m := Apply2(calls, mul, p.value, q.value);
        if m.None? then None else Apply2(calls, add, acc.value, m.value)
  }

  /** A dot as its definition has it: over the length of `x`, `y` read modulo its own. */
  function Dot(calls: Calls, add: Op, mul: Op, zero: Elem, x: Lane, y: Lane): Option<Elem>
    requires Shaped(x.t) && Shaped(y.t)
  {
    if x.len > 0 && y.len == 0 then None else Fold(calls, add, mul, zero, x, y, x.len)
  }

  /** Once a step has failed, the dot has. */
  lemma {:induction false} FoldStops(calls: Calls, add: Op, mul: Op, zero: Elem, x: Lane, y: Lane, n: nat, more: nat)
    requires Shaped(x.t) && Shaped(y.t) && x.len > 0 && y.len > 0 && n <= more
    requires Fold(calls, add, mul, zero, x, y, n).None?
    ensures Fold(calls, add, mul, zero, x, y, more).None?
    decreases more
  {
    if n < more {
      FoldStops(calls, add, mul, zero, x, y, n, more - 1);
    }
  }

  // ---- the unboxed kernel -------------------------------------------------

  /** The fold calls, for each place in turn, the multiplication on the two elements there,
      and then the addition on what there is so far and the product; it stops where a lane
      or a call gives nothing. */
  lemma FoldCalls(calls: Calls, add: nat, mul: nat, zero: Elem, x: Lane, y: Lane, n: nat)
    requires Shaped(x.t) && Shaped(y.t) && x.len > 0 && y.len > 0
    ensures var acc, p, q := Fold(calls, Closure(add), Closure(mul), zero, x, y, n), LaneAt(x, n), LaneAt(y, n);
            Fold(calls, Closure(add), Closure(mul), zero, x, y, n + 1) ==
              if acc.None? || p.None? || q.None? || calls(Closure(mul), p.value, q.value).None? then None
              else calls(Closure(add), acc.value, calls(Closure(mul), p.value, q.value).value)
    ensures Fold(calls, Closure(add), Closure(mul), zero, x, y, 0) == Some(zero)
  {
  }

  /** The kernel's one check, of its furthest positions. */
  predicate Checked(x: Lane, y: Lane)
    requires x.len > 0 && y.len > 0
  {
    && x.base + (x.len - 1) * x.step < |x.t.buf|
    && y.base + (if y.len < x.len then y.len - 1 else x.len - 1) * y.step < |y.t.buf|
  }

  ghost predicate Reachable(x: Lane, y: Lane, i: nat)
    requires x.len > 0 && y.len > 0
  {
    Spot(x, i) < |x.t.buf| && Spot(y, i) < |y.t.buf|
  }

  /** The check holds exactly when every access of the loop is in bounds. */
  lemma CheckCovers(x: Lane, y: Lane)
    requires x.len > 0 && y.len > 0
    ensures Checked(x, y) <==> forall i :: 0 <= i < x.len ==> Reachable(x, y, i)
  {
    forall i | 0 <= i < x.len
      ensures Checked(x, y) ==> Reachable(x, y, i)
    {
      MulMono(i, x.len - 1, x.step);
      var j := if i < y.len then i else i % y.len;
      MulMono(j, if y.len < x.len then y.len - 1 else x.len - 1, y.step);
    }
    if forall i :: 0 <= i < x.len ==> Reachable(x, y, i) {
      assert Reachable(x, y, x.len - 1);
      assert Reachable(x, y, if y.len < x.len then y.len - 1 else x.len - 1);
    }
  }

  /** How the unboxed kernel ends: with a dot, by giving up on an element that is not an
      integer, or by a fault. */
  datatype Kernel = Sum(value: Elem) | GaveUp | OutOfBounds

  /** The integer kernel, on unsigned 64-bit words.  What it computes, and where it
      faults, is what the generic fold of the intrinsics does. */
  method DotInts(calls: Calls, zero: Word, x: Lane, y: Lane) returns (r: Kernel)
    requires Shaped(x.t) && Shaped(y.t) && (x.len > 0 ==> y.len > 0)
    ensures r.Sum? ==> Dot(calls, IAdd, IMul, Int(zero), x, y) == Some(r.value)
    ensures r.OutOfBounds? ==> Dot(calls, IAdd, IMul, Int(zero), x, y).None?
    ensures r.GaveUp? ==>
      x.k < |x.t.shape| || y.k < |y.t.shape| || exists i :: 0 <= i < x.len && !(IntAt(x, i) && IntAt(y, i))
  {
    if x.k < |x.t.shape| || y.k < |y.t.shape| {
      return GaveUp;
    }
    hide Wrap, LaneAt, Spot, Fold;
    var n := x.len;
    if n > 0 {
      CheckCovers(x, y);
      if !Checked(x, y) {
        BlockedFold(calls, zero, x, y);
        return OutOfBounds;
      }
    }
    var acc := zero % WORDS;
    var wrap := y.len < n;
    var i := 0;
    WrapOfWord(zero);
    WrapSame(zero, acc, zero / WORDS);
    FoldNone(calls, IAdd, IMul, Int(zero), x, y);
    while i < n
      invariant i <= n && 0 <= acc < WORDS
      invariant Fold(calls, IAdd, IMul, Int(zero), x, y, i) == Some(Int(Wrap(acc)))
    {
      assert Reachable(x, y, i);
      SpotReads(x, i);
      SpotReads(y, i);
      var p := x.t.buf[x.base + i * x.step];
      var q := y.t.buf[y.base + (if wrap then i % y.len else i) * y.step];
      if !p.Int? || !q.Int? {
        assert !(IntAt(x, i) && IntAt(y, i));
        return GaveUp;
      }
      FoldStep(calls, zero, x, y, i, acc, p.value, q.value);
      acc := (acc + (p.value % WORDS) * (q.value % WORDS)) % WORDS;
      i := i + 1;
    }
    r := Sum(Int(Wrap(acc)));
  }

  ghost predicate IntAt(l: Lane, i: nat)
    requires Shaped(l.t) && l.len > 0
  {
    LaneAt(l, i).Some? && LaneAt(l, i).value.Int?
  }

  /** What the loop reads, past every axis, is the lane's element. */
  lemma SpotReads(l: Lane, i: nat)
    requires Shaped(l.t) && l.k >= |l.t.shape| && l.len > 0 && Spot(l, i) < |l.t.buf|
    ensures LaneAt(l, i) == Some(l.t.buf[Spot(l, i)])
    ensures l.base + (i % l.len) * l.step == Spot(l, i)
    ensures i < l.len ==> l.base + i * l.step == Spot(l, i)
  {
    SameSpot(l, i);
  }

  lemma FoldNone(calls: Calls, add: Op, mul: Op, zero: Elem, x: Lane, y: Lane)
    requires Shaped(x.t) && Shaped(y.t)
    ensures Fold(calls, add, mul, zero, x, y, 0) == Some(zero)
  {
  }

  lemma FoldStep(calls: Calls, zero: Word, x: Lane, y: Lane, i: nat, acc: int, p: Word, q: Word)
    requires Shaped(x.t) && Shaped(y.t) && x.len > 0 && y.len > 0
    requires Fold(calls, IAdd, IMul, Int(zero), x, y, i) == Some(Int(Wrap(acc)))
    requires LaneAt(x, i) == Some(Int(p)) && LaneAt(y, i) == Some(Int(q))
    ensures Fold(calls, IAdd, IMul, Int(zero), x, y, i + 1) == Some(Int(Wrap((acc + (p % WORDS) * (q % WORDS)) % WORDS)))
  {
    hide Wrap, LaneAt;
    KernelStep(acc, p, q);
  }

  lemma SameSpot(l: Lane, i: nat)
    requires l.len > 0
    ensures i < l.len ==> i % l.len == i
  {
  }

  /** One step on residues is one step on wrapped integers. */
  lemma KernelStep(acc: int, p: int, q: int)
    ensures Wrap((acc + (p % WORDS) * (q % WORDS)) % WORDS) == Wrap(Wrap(acc) + Wrap(p * q))
  {
    hide Wrap;
    ResidueProduct(p, q);
    var k :| (p % WORDS) * (q % WORDS) == p * q + WORDS * k;
    var sum := acc + (p % WORDS) * (q % WORDS);
    WrapSame(sum, acc + p * q, k);
    WrapSum(acc, p * q);
    WrapSame(sum, sum % WORDS, sum / WORDS);
  }

  /** An access out of bounds stops the generic fold too. */
  lemma BlockedFold(calls: Calls, zero: Word, x: Lane, y: Lane)
    requires Shaped(x.t) && Shaped(y.t) && x.len > 0 && y.len > 0 && !Checked(x, y)
    requires x.k >= |x.t.shape| && y.k >= |y.t.shape|
    ensures Dot(calls, IAdd, IMul, Int(zero), x, y).None?
  {
    CheckCovers(x, y);
    var i :| 0 <= i < x.len && !Reachable(x, y, i);
    FoldStops(calls, IAdd, IMul, Int(zero), x, y, i + 1, x.len);
  }

  predicate OnInts(add: Op, mul: Op, zero: Elem) {
    add == IAdd && mul == IMul && zero.Int?
  }

  /** One dot product: the kernel where it applies, else the generic loop; either way
      the dot. */
  method DotLanes(calls: Calls, add: Op, mul: Op, zero: Elem, x: Lane, y: Lane) returns (r: Option<Elem>)
    requires Shaped(x.t) && Shaped(y.t)
    ensures r == Dot(calls, add, mul, zero, x, y)
  {
    if x.len > 0 && y.len == 0 {
      return None;
    }
    if OnInts(add, mul, zero) {
      var fast := DotInts(calls, zero.value, x, y);
      match fast {
        case Sum(v) => return Some(v);
        case OutOfBounds => return None;
        case GaveUp =>
      }
    }
    var acc := zero;
    var i := 0;
    while i < x.len
      invariant i <= x.len && Fold(calls, add, mul, zero, x, y, i) == Some(acc)
    {
      var p, q := LaneAt(x, i), LaneAt(y, i);
      var m := if p.Some? && q.Some? then Apply2(calls, mul, p.value, q.value) else None;
      var s := if m.Some? then Apply2(calls, add, acc, m.value) else None;
      if s.None? {
        FoldStops(calls, add, mul, zero, x, y, i + 1, x.len);
        return None;
      }
      acc := s.value;
      i := i + 1;
    }
    r := Some(acc);
  }

  // ---- dots of tensors ----------------------------------------------------

  function LeadingLane(t: Tensor): Lane
    requires Shaped(t)
  {
    if |t.shape| > 0 then Lane(t, t.off, t.strides[0], t.shape[0], 1) else Lane(t, t.off, 0, 0, 1)
  }

  method DotTensors(calls: Calls, add: Op, mul: Op, zero: Elem, a: Elem, b: Elem) returns (r: Option<Elem>)
    ensures r == if AsTensor(a).None? || AsTensor(b).None? then None
                 else Dot(calls, add, mul, zero, LeadingLane(a.tensor), LeadingLane(b.tensor))
  {
    if AsTensor(a).None? || AsTensor(b).None? {
      return None;
    }
    r := DotLanes(calls, add, mul, zero, LeadingLane(a.tensor), LeadingLane(b.tensor));
  }

  /** A leading lane reads the tensor as indexing does. */
  lemma LeadingLaneIndexes(t: Tensor, i: Word)
    requires Shaped(t) && |t.shape| > 0 && t.shape[0] > 0 && i >= 0
    ensures LaneAt(LeadingLane(t), i) == Index(View(t), Int(i))
  {
    WrapsModulo(i, t.shape[0]);
    SameSpot(LeadingLane(t), i);
  }

  // ---- integer dots -------------------------------------------------------

  /** A lane's element, if it is an integer. */
  ghost function LaneInt(l: Lane, i: nat): int
    requires Shaped(l.t) && l.len > 0
  {
    if IntAt(l, i) then LaneAt(l, i).value.value else 0
  }

  /** The sum of the first `n` products. */
  ghost function Products(x: Lane, y: Lane, n: nat): int
    requires Shaped(x.t) && Shaped(y.t) && x.len > 0 && y.len > 0
  {
    if n == 0 then 0 else Products(x, y, n - 1) + LaneInt(x, n - 1) * LaneInt(y, n - 1)
  }

  /** The fold of the intrinsics over integers is their sum of products, wrapped once. */
  lemma {:induction false} FoldOfInts(calls: Calls, zero: Word, x: Lane, y: Lane, n: nat)
    requires Shaped(x.t) && Shaped(y.t) && x.len > 0 && y.len > 0
    requires forall i :: 0 <= i < n ==> IntAt(x, i) && IntAt(y, i)
    ensures Fold(calls, IAdd, IMul, Int(zero), x, y, n) == Some(Int(Wrap(zero + Products(x, y, n))))
    decreases n
  {
    hide *;
    if n > 0 {
      FoldOfInts(calls, zero, x, y, n - 1);
      assert IntAt(x, n - 1) && IntAt(y, n - 1);
      FoldNextInt(calls, zero, x, y, n, Wrap(zero + Products(x, y, n - 1)));
      WrapSum(zero + Products(x, y, n - 1), LaneInt(x, n - 1) * LaneInt(y, n - 1));
      ProductsNext(x, y, n);
    } else {
      WrapOfWord(zero);
      FoldNone(calls, IAdd, IMul, Int(zero), x, y);
      ProductsNone(x, y);
    }
  }

  lemma FoldNextInt(calls: Calls, zero: Word, x: Lane, y: Lane, n: nat, v: Word)
    requires Shaped(x.t) && Shaped(y.t) && x.len > 0 && y.len > 0 && n > 0 && IntAt(x, n - 1) && IntAt(y, n - 1)
    requires Fold(calls, IAdd, IMul, Int(zero), x, y, n - 1) == Some(Int(v))
    ensures Fold(calls, IAdd, IMul, Int(zero), x, y, n) == Some(Int(Wrap(v + Wrap(LaneInt(x, n - 1) * LaneInt(y, n - 1)))))
  {
    hide LaneAt, Wrap;
  }

  lemma ProductsNext(x: Lane, y: Lane, n: nat)
    requires Shaped(x.t) && Shaped(y.t) && x.len > 0 && y.len > 0 && n > 0
    ensures Products(x, y, n) == Products(x, y, n - 1) + LaneInt(x, n - 1) * LaneInt(y, n - 1)
  {
    hide LaneInt;
  }

  lemma ProductsNone(x: Lane, y: Lane)
    requires Shaped(x.t) && Shaped(y.t) && x.len > 0 && y.len > 0
    ensures Products(x, y, 0) == 0
  {
  }

  /** Lanes that read the same elements, swapped, have the same products. */
  lemma {:induction false} ProductsSwap(x: Lane, y: Lane, x': Lane, y': Lane, n: nat)
    requires Shaped(x.t) && Shaped(y.t) && x.len > 0 && y.len > 0 && Shaped(x'.t) && Shaped(y'.t) && x'.len > 0 && y'.len > 0
    requires forall i :: 0 <= i < n ==> LaneAt(x', i) == LaneAt(y, i) && LaneAt(y', i) == LaneAt(x, i)
    ensures Products(x', y', n) == Products(x, y, n)
    decreases n
  {
    hide *;
    if n > 0 {
      ProductsSwap(x, y, x', y', n - 1);
      ProductsNext(x, y, n);
      ProductsNext(x', y', n);
      LaneIntSame(x', y, n - 1);
      LaneIntSame(y', x, n - 1);
    } else {
      ProductsNone(x, y);
      ProductsNone(x', y');
    }
  }

  lemma LaneIntSame(a: Lane, b: Lane, i: nat)
    requires Shaped(a.t) && Shaped(b.t) && a.len > 0 && b.len > 0 && LaneAt(a, i) == LaneAt(b, i)
    ensures LaneInt(a, i) == LaneInt(b, i)
  {
    hide LaneAt;
  }

  /** So a dot of integers does not mind which operand is which. */
  lemma DotSwap(calls: Calls, zero: Word, x: Lane, y: Lane, x': Lane, y': Lane)
    requires Shaped(x.t) && Shaped(y.t) && x.len > 0 && y.len > 0 && Shaped(x'.t) && Shaped(y'.t) && x'.len == x.len && y'.len > 0
    requires forall i :: 0 <= i < x.len ==> IntAt(x, i) && IntAt(y, i) && LaneAt(x', i) == LaneAt(y, i) && LaneAt(y', i) == LaneAt(x, i)
    ensures Dot(calls, IAdd, IMul, Int(zero), x', y') == Dot(calls, IAdd, IMul, Int(zero), x, y)
  {
    hide Wrap, LaneAt, Fold;
    ProductsSwap(x, y, x', y', x.len);
    FoldOfInts(calls, zero, x, y, x.len);
    assert forall i :: 0 <= i < x.len ==> IntAt(x', i) && IntAt(y', i);
    FoldOfInts(calls, zero, x', y', x.len);
  }
}
