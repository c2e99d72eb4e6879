/** Sequence patterns: `++` chains as the parser builds and merges them, and what they
    match. */
module Patterns {
  import opened Common

  /** A number or a byte, or a sequence. */
  datatype Val = Num(n: int) | Seq(items: seq<Val>)

  /** What a match binds, names to values; the order does not count. */
  type Bindings = multiset<(nat, Val)>

  datatype Pattern =
    | Wild
    | Name(name: nat)
    | Number(n: int)
    | Str(bytes: seq<nat>)
    | List(elems: seq<Pattern>)
      /** The fixed pieces before the part of unknown length, that part, and those
          after it. */
    | Concat(pre: seq<Pattern>, mid: Option<Pattern>, suf: seq<Pattern>)

  function Bytes(bytes: seq<nat>): (r: seq<Val>)
    ensures |r| == |bytes|
  {
    seq(|bytes|, i requires 0 <= i < |bytes| => Num(bytes[i]))
  }

  // ---- what a pattern matches ---------------------------------------------

  function Both(a: Option<Bindings>, b: Option<Bindings>): Option<Bindings> {
    if a.Some? && b.Some? then Some(a.value + b.value) else None
  }

  lemma BothAssoc(a: Option<Bindings>, b: Option<Bindings>, c: Option<Bindings>)
    ensures Both(Both(a, b), c) == Both(a, Both(b, c))
  {
    if a.Some? && b.Some? && c.Some? {
      assert a.value + b.value + c.value == a.value + (b.value + c.value);
    }
  }

  lemma BothSwap(a: Option<Bindings>, b: Option<Bindings>)
    ensures Both(a, b) == Both(b, a)
  {
    if a.Some? && b.Some? {
      assert a.value + b.value == b.value + a.value;
    }
  }

  lemma BothNothing(a: Option<Bindings>)
    ensures Both(a, Some(multiset{})) == a && Both(Some(multiset{}), a) == a
  {
    if a.Some? {
      assert a.value + multiset{} == a.value && multiset{} + a.value == a.value;
    }
  }

  predicate IsPiece(p: Pattern) {
    p.Str? || p.List?
  }

  /** The length a fixed piece matches. */
  function PieceLen(p: Pattern): nat {
    match p
    case Str(bytes) => |bytes|
    case List(elems) => |elems|
    case _ => 0
  }

  function Len(pieces: seq<Pattern>): nat {
    if |pieces| == 0 then 0 else PieceLen(pieces[0]) + Len(pieces[1..])
  }

  function Fit(p: Pattern, v: Val): Option<Bindings>
    decreases p
  {
    match p
    case Wild => Some(multiset{})
    case Name(x) => Some(multiset{(x, v)})
    case Number(n) => if v == Num(n) then Some(multiset{}) else None
    case Str(bytes) => if v == Seq(Bytes(bytes)) then Some(multiset{}) else None
    case List(elems) => if v.Seq? && |v.items| == |elems| then FitAll(elems, v.items) else None
    case Concat(pre, mid, suf) =>
      if !v.Seq? then None
      else
        var s, a, z := v.items, Len(pre), Len(suf);
        if |s| < a + z || (mid.None? && |s| != a + z) then None
        else
          Both(Both(FitPieces(pre, s[..a]), if mid.Some? then Fit(mid.value, Seq(s[a..|s| - z])) else Some(multiset{})),
               FitPieces(suf, s[|s| - z..]))
  }

  /** Element patterns against as many elements. */
  function FitAll(elems: seq<Pattern>, items: seq<Val>): Option<Bindings>
    requires |elems| == |items|
    decreases elems
  {
    if |elems| == 0 then Some(multiset{}) else Both(Fit(elems[0], items[0]), FitAll(elems[1..], items[1..]))
  }

  /** Fixed pieces, one after another, against a sequence of their length. */
  function FitPieces(pieces: seq<Pattern>, s: seq<Val>): Option<Bindings>
    requires |s| == Len(pieces)
    decreases pieces
  {
    if |pieces| == 0 then Some(multiset{})
    else Both(Fit(pieces[0], Seq(s[..PieceLen(pieces[0])])), FitPieces(pieces[1..], s[PieceLen(pieces[0])..]))
  }

  // ---- normal form --------------------------------------------------------

  predicate SameKind(a: Pattern, b: Pattern) {
    (a.Str? && b.Str?) || (a.List? && b.List?)
  }

  /** Fixed pieces, no two neighbours of one kind. */
  ghost predicate Pieces(pieces: seq<Pattern>) {
    && (forall i :: 0 <= i < |pieces| ==> IsPiece(pieces[i]))
    && (forall i, j :: 0 <= i && j == i + 1 && j < |pieces| ==> !SameKind(pieces[i], pieces[j]))
  }

  /** What the parser builds: at most one part of unknown length, and no suffix without
      one. */
  ghost predicate Normal(p: Pattern)
    decreases p
  {
    match p
    case List(elems) => forall i :: 0 <= i < |elems| ==> Normal(elems[i])
    case Concat(pre, mid, suf) =>
      && Pieces(pre) && Pieces(suf)
      && (forall i :: 0 <= i < |pre| ==> Normal(pre[i])) && (forall i :: 0 <= i < |suf| ==> Normal(suf[i]))
      && (mid.None? ==> |pre| >= 2 && |suf| == 0)
      && (mid.Some? ==> Normal(mid.value) && !IsPiece(mid.value) && !mid.value.Concat? && |pre| + |suf| > 0)
    case _ => true
  }

  // ---- building chains ----------------------------------------------------

  datatype Chain = Chain(pre: seq<Pattern>, mid: Option<Pattern>, suf: seq<Pattern>)

  function ChainOf(p: Pattern): Chain {
    match p
    case Str(_) => Chain([p], None, [])
    case List(_) => Chain([p], None, [])
    case Concat(pre, mid, suf) => Chain(pre, mid, suf)
    case _ => Chain([], Some(p), [])
  }

  /** Two neighbours of one kind as one piece. */
  function Fused(a: Pattern, b: Pattern): Pattern
    requires SameKind(a, b)
  {
    if a.Str? then Str(a.bytes + b.bytes) else List(a.elems + b.elems)
  }

  function Merged(pieces: seq<Pattern>): (r: seq<Pattern>)
    decreases |pieces|
  {
    if |pieces| == 0 then []
    else Push(Merged(pieces[..|pieces| - 1]), pieces[|pieces| - 1])
  }

  function Push(out: seq<Pattern>, p: Pattern): seq<Pattern> {
    if |out| > 0 && SameKind(out[|out| - 1], p) then out[|out| - 1 := Fused(out[|out| - 1], p)] else out + [p]
  }

  method MergePieces(pieces: seq<Pattern>) returns (out: seq<Pattern>)
    ensures out == Merged(pieces)
  {
    out := [];
    for i := 0 to |pieces|
      invariant out == Merged(pieces[..i])
    {
      assert pieces[..i + 1][..i] == pieces[..i];
      var p := pieces[i];
      if |out| > 0 && out[|out| - 1].Str? && p.Str? {
        out := out[|out| - 1 := Str(out[|out| - 1].bytes + p.bytes)];
      } else if |out| > 0 && out[|out| - 1].List? && p.List? {
        out := out[|out| - 1 := List(out[|out| - 1].elems + p.elems)];
      } else {
        out := out + [p];
      }
    }
    assert pieces[..|pieces|] == pieces;
  }

  /** One chain out of two, before merging; nothing when both have a part of unknown
      length. */
  function Linked(l: Chain, r: Chain): Option<Chain> {
    if l.mid.Some? && r.mid.Some? then None
    else if l.mid.Some? then Some(Chain(l.pre, l.mid, l.suf + r.pre + r.suf))
    else Some(Chain(l.pre + l.suf + r.pre, r.mid, r.suf))
  }

  function FromChain(c: Chain): Pattern {
    var pre, suf := Merged(c.pre), Merged(c.suf);
    if c.mid.None? && |pre| == 1 then pre[0] else Concat(pre, c.mid, suf)
  }

  function Joined(left: Pattern, right: Pattern): Option<Pattern> {
    match Linked(ChainOf(left), ChainOf(right))
    case None => None
    case Some(c) => Some(FromChain(c))
  }

  /** `left ++ right` as one chain. */
  method ConcatPattern(left: Pattern, right: Pattern) returns (r: Option<Pattern>)
    ensures r == Joined(left, right)
  {
    var l, r' := ChainOf(left), ChainOf(right);
    var pre, mid, suf;
    if l.mid.Some? && r'.mid.Some? {
      return None;
    } else if l.mid.Some? {
      pre, mid, suf := l.pre, l.mid, l.suf + r'.pre + r'.suf;
    } else {
      pre, mid, suf := l.pre + l.suf + r'.pre, r'.mid, r'.suf;
    }
    pre := MergePieces(pre);
    suf := MergePieces(suf);
    if mid.None? && |pre| == 1 {
      return Some(pre[0]);
    }
    r := Some(Concat(pre, mid, suf));
  }

  // ---- merging keeps the meaning ------------------------------------------

  lemma {:induction false} LenAppend(a: seq<Pattern>, b: seq<Pattern>)
    ensures Len(a + b) == Len(a) + Len(b)
    decreases |a|
  {
    if |a| == 0 {
      assert a + b == b;
    } else {
      LenAppend(a[1..], b);
      assert (a + b)[1..] == a[1..] + b;
    }
  }

  lemma FitCons(p: Pattern, rest: seq<Pattern>, s: seq<Val>, t: seq<Val>)
    requires |s| == PieceLen(p) && |t| == Len(rest)
    ensures Len([p] + rest) == |s + t| && FitPieces([p] + rest, s + t) == Both(Fit(p, Seq(s)), FitPieces(rest, t))
  {
    assert ([p] + rest)[1..] == rest && (s + t)[..|s|] == s && (s + t)[|s|..] == t;
  }

  lemma FitAppendCons(p: Pattern, rest: seq<Pattern>, b: seq<Pattern>, u: seq<Val>, v: seq<Val>, t: seq<Val>)
    requires |u| == PieceLen(p) && |v| == Len(rest) && |t| == Len(b)
    requires Len(rest + b) == |v + t| && FitPieces(rest + b, v + t) == Both(FitPieces(rest, v), FitPieces(b, t))
    ensures Len([p] + rest + b) == |u + v + t| && Len([p] + rest) == |u + v|
    ensures FitPieces([p] + rest + b, u + v + t) == Both(FitPieces([p] + rest, u + v), FitPieces(b, t))
  {
    hide FitPieces, Both, Fit, PieceLen, Len;
    FitCons(p, rest, u, v);
    FitCons(p, rest + b, u, v + t);
    assert [p] + rest + b == [p] + (rest + b) && u + v + t == u + (v + t);
    BothAssoc(Fit(p, Seq(u)), FitPieces(rest, v), FitPieces(b, t));
  }

  lemma {:induction false} FitAppend(a: seq<Pattern>, b: seq<Pattern>, s: seq<Val>, t: seq<Val>)
    requires |s| == Len(a) && |t| == Len(b)
    ensures Len(a + b) == |s + t| && FitPieces(a + b, s + t) == Both(FitPieces(a, s), FitPieces(b, t))
    decreases |a|
  {
    if |a| == 0 {
      assert a + b == b && s + t == t;
      BothNothing(FitPieces(b, t));
    } else {
      hide FitPieces;
      var rest, n := a[1..], PieceLen(a[0]);
      var u, v := s[..n], s[n..];
      FitAppend(rest, b, v, t);
      FitAppendCons(a[0], rest, b, u, v, t);
      assert a == [a[0]] + rest && s == u + v;
    }
  }

  lemma OnePiece(p: Pattern, s: seq<Val>)
    requires PieceLen(p) == |s|
    ensures Len([p]) == |s| && FitPieces([p], s) == Fit(p, Seq(s))
  {
    assert [p][1..] == [] && s[..|s|] == s && s[|s|..] == [];
    BothNothing(Fit(p, Seq(s)));
  }

  lemma {:induction false} FitAllAppend(a: seq<Pattern>, b: seq<Pattern>, s: seq<Val>, t: seq<Val>)
    requires |s| == |a| && |t| == |b|
    ensures FitAll(a + b, s + t) == Both(FitAll(a, s), FitAll(b, t))
    decreases |a|
  {
    if |a| == 0 {
      assert a + b == b && s + t == t;
      BothNothing(FitAll(b, t));
    } else {
      FitAllAppend(a[1..], b, s[1..], t);
      assert (a + b)[1..] == a[1..] + b && (s + t)[1..] == s[1..] + t;
      BothAssoc(Fit(a[0], s[0]), FitAll(a[1..], s[1..]), FitAll(b, t));
    }
  }

  lemma FusedFits(a: Pattern, b: Pattern, s: seq<Val>)
    requires SameKind(a, b) && |s| == PieceLen(a) + PieceLen(b)
    ensures PieceLen(Fused(a, b)) == |s|
    ensures Fit(Fused(a, b), Seq(s)) == Both(Fit(a, Seq(s[..PieceLen(a)])), Fit(b, Seq(s[PieceLen(a)..])))
  {
    var n := PieceLen(a);
    assert s == s[..n] + s[n..];
    if a.Str? {
      assert Bytes(a.bytes + b.bytes) == Bytes(a.bytes) + Bytes(b.bytes);
      assert s == Bytes(a.bytes + b.bytes) <==> s[..n] == Bytes(a.bytes) && s[n..] == Bytes(b.bytes);
      BothNothing(Some(multiset{}));
    } else {
      FitAllAppend(a.elems, b.elems, s[..n], s[n..]);
    }
  }

  lemma LastFused(front: seq<Pattern>, last: Pattern, p: Pattern, a: seq<Val>, b: seq<Val>, c: seq<Val>)
    requires |a| == Len(front) && |b| == PieceLen(last) && |c| == PieceLen(p) && SameKind(last, p)
    ensures Len(front + [Fused(last, p)]) == |a + (b + c)| && Len(front + [last]) == |a + b|
    ensures FitPieces(front + [Fused(last, p)], a + (b + c)) == Both(FitPieces(front + [last], a + b), Fit(p, Seq(c)))
  {
    hide Both, Fit, PieceLen, Fused, FitPieces, Len;
    OnePiece(last, b);
    FitAppend(front, [last], a, b);
    FusedFits(last, p, b + c);
    assert (b + c)[..|b|] == b && (b + c)[|b|..] == c;
    OnePiece(Fused(last, p), b + c);
    FitAppend(front, [Fused(last, p)], a, b + c);
    BothAssoc(FitPieces(front, a), Fit(last, Seq(b)), Fit(p, Seq(c)));
  }

  lemma PushFits(out: seq<Pattern>, p: Pattern, s: seq<Val>, t: seq<Val>)
    requires |s| == Len(out) && |t| == PieceLen(p)
    ensures Len(Push(out, p)) == |s + t| && FitPieces(Push(out, p), s + t) == Both(FitPieces(out, s), Fit(p, Seq(t)))
  {
    hide Both, Fit, Fused, FitPieces;
    if |out| > 0 && SameKind(out[|out| - 1], p) {
      var front, last := out[..|out| - 1], out[|out| - 1];
      assert out == front + [last];
      LenAppend(front, [last]);
      assert Len([last]) == PieceLen(last);
      var a, b := s[..Len(front)], s[Len(front)..];
      LastFused(front, last, p, a, b, t);
      assert s == a + b && s + t == a + (b + t) && Push(out, p) == front + [Fused(last, p)];
    } else {
      OnePiece(p, t);
      FitAppend(out, [p], s, t);
    }
  }

  /** Merging neighbours keeps the length and what is matched. */
  lemma {:induction false} MergedFits(pieces: seq<Pattern>, s: seq<Val>)
    requires |s| == Len(pieces)
    ensures Len(Merged(pieces)) == |s| && FitPieces(Merged(pieces), s) == FitPieces(pieces, s)
    decreases |pieces|
  {
    if |pieces| > 0 {
      var front, last := pieces[..|pieces| - 1], pieces[|pieces| - 1];
      assert pieces == front + [last];
      LenAppend(front, [last]);
      var n := Len(front);
      assert s == s[..n] + s[n..];
      MergedFits(front, s[..n]);
      PushFits(Merged(front), last, s[..n], s[n..]);
      OnePiece(last, s[n..]);
      FitAppend(front, [last], s[..n], s[n..]);
    }
  }

  lemma {:induction false} MergedLen(pieces: seq<Pattern>)
    ensures Len(Merged(pieces)) == Len(pieces)
  {
    MergedFits(pieces, seq(Len(pieces), i => Num(0)));
  }

  /** Merging leaves pieces, no two neighbours of one kind. */
  lemma {:induction false} MergedIsPieces(pieces: seq<Pattern>)
    requires forall i :: 0 <= i < |pieces| ==> IsPiece(pieces[i]) && Normal(pieces[i])
    ensures Pieces(Merged(pieces)) && (forall i :: 0 <= i < |Merged(pieces)| ==> Normal(Merged(pieces)[i]))
    ensures |Merged(pieces)| > 0 <==> |pieces| > 0
    decreases |pieces|
  {
    if |pieces| > 0 {
      var front := pieces[..|pieces| - 1];
      MergedIsPieces(front);
    }
  }
}
