/** Whatever is built from scalars by the tensor operations, in any number and order,
    keeps every index of its shape inside its buffer. */
module Building {
  import opened Common
  import opened Shapes
  import opened Tensors
  import opened Views
  import opened Stacking

  /** How an element was made: a scalar, or an operation on what was made before. */
  datatype Built =
    | Scalar(e: Elem)
    | Stacks(parts: seq<Built>)
    | Joins(x: Built, y: Built)
    | Transposes(x: Built)
    | Slices(x: Built, from: Elem, to: Elem)
    | SlicesAxis(x: Built, axis: Elem, from: Elem, to: Elem)
    | Indexes(x: Built, at: Elem)
    | IndexesAxis(x: Built, axis: Elem, at: Elem)

  /** What it comes to, or nothing where an operation faults. */
  ghost function Value(b: Built): Option<Elem>
    decreases b
  {
    match b
    case Scalar(e) => if e.View? then None else Some(e)
    case Stacks(parts) =>
      var es := Values(parts);
      if es.Some? && Stackable(es.value) then Some(View(Stacked(es.value))) else None
    case Joins(x, y) =>
      var a, c := Value(x), Value(y);
      if a.None? || c.None? || !a.value.View? || !c.value.View? || !Joinable(a.value.tensor, c.value.tensor) then None
      else if Inside(a.value.tensor) && Inside(c.value.tensor) then Some(View(Joined(a.value.tensor, c.value.tensor)))
      else None
    case Transposes(x) =>
      var a := Value(x);
      if a.None? || AsTensor(a.value).None? then None else Some(View(Transposed(a.value.tensor)))
    case Slices(x, from, to) => var a := Value(x); if a.None? then None else Slice(a.value, from, to)
    case SlicesAxis(x, axis, from, to) => var a := Value(x); if a.None? then None else SliceAxis(a.value, axis, from, to)
    case Indexes(x, at) => var a := Value(x); if a.None? then None else Index(a.value, at)
    case IndexesAxis(x, axis, at) => var a := Value(x); if a.None? then None else IndexedAxis(a.value, axis, at)
  }

  ghost function Values(parts: seq<Built>): Option<seq<Elem>>
    decreases parts
  {
    if |parts| == 0 then Some([])
    else
      var first, rest := Value(parts[0]), Values(parts[1..]);
      if first.None? || rest.None? then None else Some([first.value] + rest.value)
  }

  lemma {:induction false} AllInside(b: Built)
    ensures Value(b).Some? ==> Good(Value(b).value)
    decreases b
  {
    if Value(b).Some? {
      match b
      case Scalar(_) =>
      case Stacks(parts) =>
        AllOfThem(parts);
        StackedGood(Values(parts).value);
      case Joins(x, y) =>
        AllInside(x);
        AllInside(y);
        JoinedGood(Value(x).value.tensor, Value(y).value.tensor);
      case Transposes(x) =>
        AllInside(x);
        TransposedGood(Value(x).value.tensor);
      case Slices(x, from, to) =>
        AllInside(x);
        SlicesGood(Value(x).value, from, from, to);
      case SlicesAxis(x, axis, from, to) =>
        AllInside(x);
        SlicesGood(Value(x).value, axis, from, to);
      case Indexes(x, at) =>
        AllInside(x);
        var t := Value(x).value.tensor;
        IndexFixesFirst(Value(x).value, at);
        FixedGood(t, 0, at.value % t.shape[0]);
      case IndexesAxis(x, axis, at) =>
        AllInside(x);
        var t := Value(x).value.tensor;
        WrapsModulo(at.value, t.shape[axis.value]);
        FixedGood(t, axis.value, WrapIndex(at.value, t.shape[axis.value]));
    }
  }

  lemma {:induction false} AllOfThem(parts: seq<Built>)
    ensures Values(parts).Some? ==> forall i :: 0 <= i < |Values(parts).value| ==> Good(Values(parts).value[i])
    decreases parts
  {
    if |parts| > 0 {
      AllInside(parts[0]);
      AllOfThem(parts[1..]);
    }
  }
}
