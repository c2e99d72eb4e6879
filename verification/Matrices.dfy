/** Matrix products: every cell a dot of a row and a column, whatever views they are. */
module Matrices {
  import opened Common
  import opened Shapes
  import opened Tensors
  import opened Views
  import opened Stacking
  import opened Dots

  // ---- the kernel ---------------------------------------------------------

  function RowLane(x: Tensor, i: nat): Lane
    requires Shaped(x) && |x.shape| >= 2
  {
    Lane(x, x.off + i * x.strides[0], x.strides[1], x.shape[1], 2)
  }

  function ColumnLane(y: Tensor, j: nat): Lane
    requires Shaped(y) && |y.shape| >= 2
  {
    Lane(y, y.off + j * y.strides[1], y.strides[0], y.shape[0], 2)
  }

  /** Cell `(i, j)` of a product. */
  function ProductCell(calls: Calls, add: Op, mul: Op, zero: Elem, x: Tensor, y: Tensor, i: nat, j: nat): Option<Elem>
    requires Shaped(x) && |x.shape| >= 2 && Shaped(y) && |y.shape| >= 2
  {
    Dot(calls, add, mul, zero, RowLane(x, i), ColumnLane(y, j))
  }

  ghost predicate CellsOf(calls: Calls, add: Op, mul: Op, zero: Elem, x: Tensor, y: Tensor, cells: seq<Elem>, k: nat)
    requires Shaped(x) && |x.shape| >= 2 && Shaped(y) && |y.shape| >= 2
  {
    k <= |cells| && forall i: nat, j: nat :: Cellular(i, j, y.shape[1], k) ==> ProductCell(calls, add, mul, zero, x, y, i, j) == Some(cells[i * y.shape[1] + j])
  }

  /** `(i, j)` is one of the first `k` cells of rows of `n`. */
  ghost predicate Cellular(i: nat, j: nat, n: nat, k: nat) {
    j < n && i * n + j < k
  }

  /** Every cell of the product, row by row, or nothing when one of them faults. */
  method ProductCells(calls: Calls, add: Op, mul: Op, zero: Elem, x: Tensor, y: Tensor) returns (r: Option<seq<Elem>>)
    requires Shaped(x) && |x.shape| >= 2 && Shaped(y) && |y.shape| >= 2
    ensures r.Some? ==> |r.value| == x.shape[0] * y.shape[1] && CellsOf(calls, add, mul, zero, x, y, r.value, |r.value|)
    ensures r.None? ==> exists i, j :: 0 <= i < x.shape[0] && 0 <= j < y.shape[1] && ProductCell(calls, add, mul, zero, x, y, i, j).None?
  {
    hide Dot, CellsOf;
    var m, n := x.shape[0], y.shape[1];
    var cells := new Elem[m * n](i => Boxed(0));
    var i := 0;
    NoCells(calls, add, mul, zero, x, y, cells[..]);
    while i < m
      invariant i <= m && i * n <= m * n && CellsOf(calls, add, mul, zero, x, y, cells[..], i * n)
    {
      MulNext(i + 1, n);
      MulMono(i + 1, m, n);
      var j := 0;
      while j < n
        invariant j <= n && i * n + j <= m * n && CellsOf(calls, add, mul, zero, x, y, cells[..], i * n + j)
      {
        var c := DotLanes(calls, add, mul, zero, RowLane(x, i), ColumnLane(y, j));
        assert c == ProductCell(calls, add, mul, zero, x, y, i, j);
        if c.None? {
          return None;
        }
        ghost var before := cells[..];
        cells[i * n + j] := c.value;
        OneMoreCell(calls, add, mul, zero, x, y, before, cells[..], i, j);
        j := j + 1;
      }
      i := i + 1;
    }
    r := Some(cells[..]);
  }

  lemma NoCells(calls: Calls, add: Op, mul: Op, zero: Elem, x: Tensor, y: Tensor, cells: seq<Elem>)
    requires Shaped(x) && |x.shape| >= 2 && Shaped(y) && |y.shape| >= 2
    ensures CellsOf(calls, add, mul, zero, x, y, cells, 0 * y.shape[1])
  {
  }

  lemma OneMoreCell(calls: Calls, add: Op, mul: Op, zero: Elem, x: Tensor, y: Tensor, before: seq<Elem>, after: seq<Elem>, i: nat, j: nat)
    requires Shaped(x) && |x.shape| >= 2 && Shaped(y) && |y.shape| >= 2
    requires var k := i * y.shape[1] + j;
             j < y.shape[1] && k < |before| && CellsOf(calls, add, mul, zero, x, y, before, k)
             && ProductCell(calls, add, mul, zero, x, y, i, j).Some? && after == before[k := ProductCell(calls, add, mul, zero, x, y, i, j).value]
    ensures CellsOf(calls, add, mul, zero, x, y, after, i * y.shape[1] + j + 1)
  {
    hide ProductCell;
    var n, k := y.shape[1], i * y.shape[1] + j;
    forall a: nat, b: nat | Cellular(a, b, n, k + 1)
      ensures ProductCell(calls, add, mul, zero, x, y, a, b) == Some(after[a * n + b])
    {
      if a * n + b == k {
        DivUnique(a, b, n);
        DivUnique(i, j, n);
      } else {
        assert Cellular(a, b, n, k);
      }
    }
  }

  predicate AllScalars(cells: seq<Elem>) {
    forall i :: 0 <= i < |cells| ==> !cells[i].View?
  }

  /** Row `i` of `m * n` cells. */
  function RowOf(cells: seq<Elem>, n: nat, i: nat): (r: seq<Elem>)
    requires (i + 1) * n <= |cells|
    ensures |r| == n
  {
    MulNext(i + 1, n);
    cells[i * n..i * n + n]
  }

  ghost predicate RowStacks(cells: seq<Elem>, n: nat, i: nat) {
    (i + 1) * n <= |cells| && Stackable(RowOf(cells, n, i))
  }

  ghost predicate RowsStack(cells: seq<Elem>, m: nat, n: nat) {
    forall i :: 0 <= i < m ==> RowStacks(cells, n, i)
  }

  ghost function StackedRow(cells: seq<Elem>, n: nat, i: nat): Elem
    requires RowStacks(cells, n, i)
  {
    View(Stacked(RowOf(cells, n, i)))
  }

  ghost function StackedRows(cells: seq<Elem>, m: nat, n: nat): seq<Elem>
    requires RowsStack(cells, m, n)
  {
    seq(m, i requires 0 <= i < m => StackedRow(cells, n, i))
  }

  ghost predicate Assembles(cells: seq<Elem>, m: nat, n: nat)
    requires m * n == |cells|
  {
    AllScalars(cells) || (RowsStack(cells, m, n) && Stackable(StackedRows(cells, m, n)))
  }

  /** The cells as a tensor: a matrix of scalars, or a stack of stacked rows. */
  ghost function Assembled(cells: seq<Elem>, m: nat, n: nat): Tensor
    requires m * n == |cells| && Assembles(cells, m, n)
  {
    if AllScalars(cells) then Contiguous(cells, [m, n]) else Stacked(StackedRows(cells, m, n))
  }

  method StackRows(cells: seq<Elem>, m: nat, n: nat) returns (r: Option<Elem>)
    requires m * n == |cells|
    ensures r.Some? <==> RowsStack(cells, m, n) && Stackable(StackedRows(cells, m, n))
    ensures r.Some? ==> r.value == View(Stacked(StackedRows(cells, m, n)))
  {
    hide Stackable, Stacked;
    var rows := new Elem[m](i => Boxed(0));
    var i := 0;
    while i < m
      invariant i <= m
      invariant forall j :: 0 <= j < i ==> RowStacks(cells, n, j) && rows[j] == StackedRow(cells, n, j)
    {
      MulMono(i + 1, m, n);
      var row := Stack(RowOf(cells, n, i));
      if row.None? {
        assert !RowStacks(cells, n, i);
        return None;
      }
      rows[i] := row.value;
      i := i + 1;
    }
    assert rows[..] == StackedRows(cells, m, n);
    r := Stack(rows[..]);
  }

  /** A matrix product: nothing when the operands are no matrices, a cell faults, or
      cells that are tensors do not stack; a vector of no rows when there are none;
      else its cells. */
  method Matmul(calls: Calls, add: Op, mul: Op, zero: Elem, a: Elem, b: Elem) returns (r: Option<Elem>, ghost cells: seq<Elem>)
    ensures AsTensor(a).None? || AsTensor(b).None? || |a.tensor.shape| < 2 || |b.tensor.shape| < 2 ==> r.None?
    ensures AsTensor(a).Some? && AsTensor(b).Some? && |a.tensor.shape| >= 2 && |b.tensor.shape| >= 2 ==>
      Multiplied(calls, add, mul, zero, a.tensor, b.tensor, r, cells)
  {
    hide Assembles, Assembled, ProductCell, CellsOf, Stacked;
    cells := [];
    if AsTensor(a).None? || AsTensor(b).None? || |a.tensor.shape| < 2 || |b.tensor.shape| < 2 {
      return None, [];
    }
    var x, y := a.tensor, b.tensor;
    var m, n := x.shape[0], y.shape[1];
    if m == 0 {
      r := Stack([]);
      return;
    }
    var found := ProductCells(calls, add, mul, zero, x, y);
    if found.None? {
      return None, [];
    }
    cells := found.value;
    NoneFaults(calls, add, mul, zero, x, y, cells);
    r := Assemble(found.value, m, n);
  }

  method Assemble(cells: seq<Elem>, m: nat, n: nat) returns (r: Option<Elem>)
    requires m * n == |cells|
    ensures r.Some? <==> Assembles(cells, m, n)
    ensures r.Some? ==> r.value == View(Assembled(cells, m, n))
  {
    hide RowsStack, Stackable, Stacked;
    var scalar := true;
    for i := 0 to |cells|
      invariant scalar <==> AllScalars(cells[..i])
    {
      scalar := scalar && !cells[i].View?;
    }
    assert cells[..|cells|] == cells;
    if scalar {
      var t := TensorOf(cells, [m, n]);
      r := Some(View(t));
    } else {
      r := StackRows(cells, m, n);
    }
  }

  lemma NoneFaults(calls: Calls, add: Op, mul: Op, zero: Elem, x: Tensor, y: Tensor, cells: seq<Elem>)
    requires Shaped(x) && |x.shape| >= 2 && Shaped(y) && |y.shape| >= 2
    requires CellsOf(calls, add, mul, zero, x, y, cells, x.shape[0] * y.shape[1])
    ensures forall i, j :: 0 <= i < x.shape[0] && 0 <= j < y.shape[1] ==> ProductCell(calls, add, mul, zero, x, y, i, j).Some?
  {
    hide ProductCell;
    forall i, j | 0 <= i < x.shape[0] && 0 <= j < y.shape[1]
      ensures ProductCell(calls, add, mul, zero, x, y, i, j).Some?
    {
      CellPlace(i, j, x.shape[0], y.shape[1]);
      assert Cellular(i, j, y.shape[1], x.shape[0] * y.shape[1]);
    }
  }

  ghost predicate Multiplied(calls: Calls, add: Op, mul: Op, zero: Elem, x: Tensor, y: Tensor, r: Option<Elem>, cells: seq<Elem>)
    requires Shaped(x) && |x.shape| >= 2 && Shaped(y) && |y.shape| >= 2
  {
    var m, n := x.shape[0], y.shape[1];
    if m == 0 then r == Some(View(Stacked([])))
    else if exists i, j :: 0 <= i < m && 0 <= j < n && ProductCell(calls, add, mul, zero, x, y, i, j).None? then r.None?
    else
      && |cells| == m * n && CellsOf(calls, add, mul, zero, x, y, cells, m * n)
      && (r.Some? <==> Assembles(cells, m, n))
      && (r.Some? ==> r.value == View(Assembled(cells, m, n)))
  }

  // ---- what a product holds -----------------------------------------------

  lemma CellPlace(i: nat, j: nat, m: nat, n: nat)
    requires i < m && j < n
    ensures i * n + j < m * n && InShape([i, j], [m, n]) && RankOf([i, j], [m, n]) == i * n + j && Total([m, n]) == m * n
  {
    MulNext(i + 1, n);
    MulMono(i + 1, m, n);
    assert [i, j] == [i] + [j] && [m, n] == [m] + [n];
    RankSplit(i, [j], m, [n]);
    OneAxis([n]);
    IndexInShape(j, [n]);
  }

  /** A product of scalars holds its cells. */
  lemma ScalarsAt(cells: seq<Elem>, m: nat, n: nat, i: nat, j: nat)
    requires |cells| == m * n && AllScalars(cells) && i < m && j < n
    ensures var t := Assembled(cells, m, n);
            i * n + j < |cells| && Inside(t) && InShape([i, j], t.shape) && At(t, [i, j]) == cells[i * n + j]
  {
    CellPlace(i, j, m, n);
    ContiguousInside(cells, [m, n]);
  }

  /** `t` holds, under the leading indices `front`, what `e` holds. */
  ghost predicate Holds(t: Tensor, front: seq<nat>, e: Elem) {
    && e.View? && Inside(e.tensor) && Inside(t)
    && forall idx :: InShape(idx, e.tensor.shape) ==> InShape(front + idx, t.shape) && At(t, front + idx) == At(e.tensor, idx)
  }

  /** A product of tensors holds each cell's elements under the cell's indices. */
  lemma TensorsAt(cells: seq<Elem>, shape: seq<nat>, m: nat, n: nat, i: nat, j: nat)
    requires |cells| == m * n && Alike(cells, shape) && i < m && j < n
    ensures Assembles(cells, m, n)
    ensures i * n + j < |cells| && Holds(Assembled(cells, m, n), [i, j], cells[i * n + j])
  {
    hide Inside, At, Stacked, RowOf, StackedRow, RowsStack, StackedRows, Alike;
    CellPlace(i, j, m, n);
    CellIsView(cells, shape, i * n + j);
    RowsAlike(cells, shape, m, n);
    RowsInside(cells, shape, m, n);
    var t := Stacked(StackedRows(cells, m, n));
    forall idx | InShape(idx, shape)
      ensures InShape([i, j] + idx, t.shape) && At(t, [i, j] + idx) == At(cells[i * n + j].tensor, idx)
    {
      RowAt(cells, shape, m, n, i, j, idx);
      RowsHold(cells, shape, m, n, i, [j] + idx);
      assert [i, j] + idx == [i] + ([j] + idx);
    }
  }

  lemma RowsInside(cells: seq<Elem>, shape: seq<nat>, m: nat, n: nat)
    requires |cells| == m * n && RowsStack(cells, m, n) && Alike(StackedRows(cells, m, n), [n] + shape) && m > 0
    ensures Stackable(StackedRows(cells, m, n)) && Inside(Stacked(StackedRows(cells, m, n)))
  {
    hide Inside, Stacked, StackedRow, RowsStack;
    var rows := StackedRows(cells, m, n);
    assert rows[0].View?;
    StackedAt(rows);
  }

  lemma CellIsView(cells: seq<Elem>, shape: seq<nat>, k: nat)
    requires Alike(cells, shape) && k < |cells|
    ensures cells[k].View? && cells[k].tensor.shape == shape && Inside(cells[k].tensor) && !AllScalars(cells)
  {
  }

  lemma RowsAlike(cells: seq<Elem>, shape: seq<nat>, m: nat, n: nat)
    requires |cells| == m * n && Alike(cells, shape) && n > 0
    ensures RowsStack(cells, m, n) && Alike(StackedRows(cells, m, n), [n] + shape)
  {
    hide Inside, Stacked, At, Alike, RowOf, Stackable;
    forall i | 0 <= i < m
      ensures RowFits(cells, shape, n, i) && RowStacks(cells, n, i)
    {
      MulMono(i + 1, m, n);
      OneRow(cells, shape, n, i);
    }
    AlikeRows(cells, shape, m, n);
  }

  ghost predicate RowFits(cells: seq<Elem>, shape: seq<nat>, n: nat, i: nat) {
    && RowStacks(cells, n, i)
    && Stacked(RowOf(cells, n, i)).shape == [n] + shape && Inside(Stacked(RowOf(cells, n, i)))
  }

  lemma OneRow(cells: seq<Elem>, shape: seq<nat>, n: nat, i: nat)
    requires Alike(cells, shape) && n > 0 && (i + 1) * n <= |cells|
    ensures RowFits(cells, shape, n, i) && RowOf(cells, n, i)[0].View?
  {
    hide Inside, Stacked, At;
    var row := RowOf(cells, n, i);
    assert Alike(row, shape) && row[0].View? && row[0].tensor.shape == shape;
    StackedAt(row);
  }

  lemma AlikeRows(cells: seq<Elem>, shape: seq<nat>, m: nat, n: nat)
    requires RowsStack(cells, m, n)
    requires forall i :: 0 <= i < m ==> RowFits(cells, shape, n, i)
    ensures Alike(StackedRows(cells, m, n), [n] + shape)
  {
    hide Inside, Stacked, RowOf, Stackable;
    var rows := StackedRows(cells, m, n);
    forall i | 0 <= i < m
      ensures rows[i].View? && Inside(rows[i].tensor) && rows[i].tensor.shape == [n] + shape
    {
      assert RowFits(cells, shape, n, i) && rows[i] == StackedRow(cells, n, i);
    }
  }

  lemma RowAt(cells: seq<Elem>, shape: seq<nat>, m: nat, n: nat, i: nat, j: nat, idx: seq<nat>)
    requires |cells| == m * n && Alike(cells, shape) && i < m && j < n && InShape(idx, shape) && RowsStack(cells, m, n)
    ensures i * n + j < |cells|
    ensures var row := StackedRow(cells, n, i).tensor;
            Inside(row) && InShape([j] + idx, row.shape) && At(row, [j] + idx) == At(cells[i * n + j].tensor, idx)
  {
    hide Inside, At, Stacked;
    CellPlace(i, j, m, n);
    MulMono(i + 1, m, n);
    var row := RowOf(cells, n, i);
    assert row[j] == cells[i * n + j];
    assert Alike(row, shape);
    StackedAt(row);
  }

  lemma StacksRow(cells: seq<Elem>, m: nat, n: nat, i: nat)
    requires RowsStack(cells, m, n) && i < m
    ensures RowStacks(cells, n, i)
  {
  }

  /** A stack of the rows holds, at `[i] + idx`, what row `i` holds at `idx`. */
  lemma RowsHold(cells: seq<Elem>, shape: seq<nat>, m: nat, n: nat, i: nat, idx: seq<nat>)
    requires |cells| == m * n && RowsStack(cells, m, n) && Alike(StackedRows(cells, m, n), [n] + shape)
    requires i < m && InShape(idx, [n] + shape)
    ensures var rows := StackedRows(cells, m, n);
            && Stackable(rows) && Inside(Stacked(rows)) && InShape([i] + idx, Stacked(rows).shape)
            && Inside(StackedRow(cells, n, i).tensor) && StackedRow(cells, n, i).tensor.shape == [n] + shape
            && At(Stacked(rows), [i] + idx) == At(StackedRow(cells, n, i).tensor, idx)
  {
    hide Inside, At, Stacked, StackedRow, RowsStack;
    var rows := StackedRows(cells, m, n);
    assert RowStacks(cells, n, i) by {
      StacksRow(cells, m, n, i);
    }
    assert rows[0].View? && rows[i] == StackedRow(cells, n, i);
    StackedAt(rows);
  }

  /** A row's lane reads the row. */
  lemma RowLaneAt(x: Tensor, i: nat, l: nat)
    requires Inside(x) && |x.shape| == 2 && i < x.shape[0] && l < x.shape[1]
    ensures InShape([i, l], x.shape) && LaneAt(RowLane(x, i), l) == Some(At(x, [i, l]))
  {
    PairPos(x, i, l);
    assert InShape([i, l], x.shape);
  }

  /** A column's lane reads the column, again from its top when it runs out. */
  lemma ColumnLaneAt(y: Tensor, j: nat, l: nat)
    requires Inside(y) && |y.shape| == 2 && j < y.shape[1] && y.shape[0] > 0
    ensures InShape([l % y.shape[0], j], y.shape) && LaneAt(ColumnLane(y, j), l) == Some(At(y, [l % y.shape[0], j]))
  {
    SameSpot(ColumnLane(y, j), l);
    PairPos(y, l % y.shape[0], j);
    assert InShape([l % y.shape[0], j], y.shape);
  }

  lemma PairPos(t: Tensor, i: nat, j: nat)
    requires Shaped(t) && |t.shape| == 2
    ensures Pos(t, [i, j]) == t.off + i * t.strides[0] + j * t.strides[1]
  {
    assert [i, j] == [i] + [j] && t.strides == [t.strides[0]] + [t.strides[1]];
    FlatSplit([i], [j], [t.strides[0]], [t.strides[1]]);
    FlatOne(i, t.strides[0]);
    FlatOne(j, t.strides[1]);
  }

  /** A matrix of integers. */
  ghost predicate IntMatrix(t: Tensor) {
    Inside(t) && |t.shape| == 2 && forall i, j :: 0 <= i < t.shape[0] && 0 <= j < t.shape[1] ==> InShape([i, j], t.shape) && At(t, [i, j]).Int?
  }

  ghost function Entry(t: Tensor, i: nat, j: nat): int
    requires IntMatrix(t) && i < t.shape[0] && j < t.shape[1]
  {
    assert InShape([i, j], t.shape) && At(t, [i, j]).Int?;
    At(t, [i, j]).value
  }

  /** The sum of the first `k` products of row `i` and column `j`. */
  ghost function RowByColumn(x: Tensor, y: Tensor, i: nat, j: nat, k: nat): int
    requires IntMatrix(x) && IntMatrix(y) && i < x.shape[0] && j < y.shape[1] && k <= x.shape[1] && (k > 0 ==> y.shape[0] > 0)
  {
    if k == 0 then 0 else RowByColumn(x, y, i, j, k - 1) + Entry(x, i, k - 1) * Entry(y, (k - 1) % y.shape[0], j)
  }

  lemma {:induction false} LanesByEntries(x: Tensor, y: Tensor, i: nat, j: nat, k: nat)
    requires IntMatrix(x) && IntMatrix(y) && i < x.shape[0] && j < y.shape[1] && k <= x.shape[1] && x.shape[1] > 0 && y.shape[0] > 0
    ensures Products(RowLane(x, i), ColumnLane(y, j), k) == RowByColumn(x, y, i, j, k)
    ensures forall l :: 0 <= l < k ==> IntAt(RowLane(x, i), l) && IntAt(ColumnLane(y, j), l)
    decreases k
  {
    if k > 0 {
      LanesByEntries(x, y, i, j, k - 1);
      RowLaneAt(x, i, k - 1);
      ColumnLaneAt(y, j, k - 1);
    }
  }

  /** A cell of an integer product is the sum of the products of its row and its column,
      modulo the word size; it faults only when the column is empty and the row is not. */
  lemma IntegerCell(calls: Calls, zero: Word, x: Tensor, y: Tensor, i: nat, j: nat)
    requires IntMatrix(x) && IntMatrix(y) && i < x.shape[0] && j < y.shape[1]
    ensures var c := ProductCell(calls, IAdd, IMul, Int(zero), x, y, i, j);
            if x.shape[1] > 0 && y.shape[0] == 0 then c.None?
            else c == Some(Int(Wrap(zero + RowByColumn(x, y, i, j, x.shape[1]))))
  {
    if x.shape[1] > 0 && y.shape[0] > 0 {
      LanesByEntries(x, y, i, j, x.shape[1]);
      FoldOfInts(calls, zero, RowLane(x, i), ColumnLane(y, j), x.shape[1]);
    } else if x.shape[1] == 0 {
      WrapOfWord(zero);
    }
  }

  /** The transpose of an integer product is the product of the transposes, the other
      way round. */
  lemma TransposedCell(calls: Calls, zero: Word, x: Tensor, y: Tensor, i: nat, j: nat)
    requires IntMatrix(x) && IntMatrix(y) && x.shape[1] == y.shape[0] && i < x.shape[0] && j < y.shape[1]
    ensures ProductCell(calls, IAdd, IMul, Int(zero), Transposed(y), Transposed(x), j, i) == ProductCell(calls, IAdd, IMul, Int(zero), x, y, i, j)
  {
    if x.shape[1] > 0 {
      LanesByEntries(x, y, i, j, x.shape[1]);
      TransposedLanes(x, y, i, j);
      hide Transposed, LaneAt, Dot;
      DotSwap(calls, zero, RowLane(x, i), ColumnLane(y, j), RowLane(Transposed(y), j), ColumnLane(Transposed(x), i));
    }
  }

  /** A transposed matrix's row is the matrix's column, and the other way round. */
  lemma TransposedLanes(x: Tensor, y: Tensor, i: nat, j: nat)
    requires Shaped(x) && Shaped(y) && |x.shape| == 2 && |y.shape| == 2 && x.shape[1] == y.shape[0] > 0
    ensures var row, col := RowLane(Transposed(y), j), ColumnLane(Transposed(x), i);
            && row.len == y.shape[0] && col.len == x.shape[1]
            && forall l :: 0 <= l < x.shape[1] ==> LaneAt(row, l) == LaneAt(ColumnLane(y, j), l) && LaneAt(col, l) == LaneAt(RowLane(x, i), l)
  {
  }
}
