/** Sequence patterns from source to strips: a chain becomes nested matches that each
    take one piece off the front or the back, and they match what the source says. */
module Desugaring {
  import opened Common
  import opened Patterns
  import opened Splitting

  /** A pattern of the core language. */
  datatype Pat =
    | PWild
    | PName(name: nat)
    | PNumber(n: int)
    | PStr(bytes: seq<nat>)
      /** A literal taken off the front, or off the back; `rest` matches what is left. */
    | StrPrefix(prefix: seq<nat>, back: bool, rest: Pat)
      /** Elements taken one by one off the front, or off the back from the last one;
          without `others` nothing may be left. */
    | SeqView(back: bool, elems: seq<Pat>, others: Option<Pat>)

  // ---- matching -----------------------------------------------------------

  /** What stripping elements binds, and what it leaves. */
  datatype Peeled = Peeled(bound: Option<Bindings>, left: seq<Val>)

  /** Match a core pattern.  A strip is only ever given a sequence: the checker has
      resolved its view. */
  function Match(p: Pat, v: Val): Option<Bindings>
    decreases p
  {
    match p
    case PWild => Some(multiset{})
    case PName(x) => Some(multiset{(x, v)})
    case PNumber(n) => if v == Num(n) then Some(multiset{}) else None
    case PStr(bytes) => if v == Seq(Bytes(bytes)) then Some(multiset{}) else None
    case StrPrefix(prefix, back, rest) =>
      if !v.Seq? || |v.items| < |prefix| then None
      else
        var s := v.items;
        var cut := if back then |s| - |prefix| else |prefix|;
        if (if back then s[cut..] else s[..cut]) != Bytes(prefix) then None
        else Match(rest, Seq(if back then s[..cut] else s[cut..]))
    case SeqView(back, elems, rest) =>
      if !v.Seq? then None
      else
        var r := Peel(back, elems, v.items);
        if r.bound.None? then None
        else if rest.Some? then Both(r.bound, Match(rest.value, Seq(r.left)))
        else if r.left == [] then r.bound
        else None
  }

  /** Step the view once for each element pattern. */
  function Peel(back: bool, elems: seq<Pat>, s: seq<Val>): (r: Peeled)
    ensures r.bound.Some? ==> |s| >= |elems| && r.left == if back then s[..|s| - |elems|] else s[|elems|..]
    decreases elems
  {
    if |elems| == 0 then Peeled(Some(multiset{}), s)
    else if |s| == 0 then Peeled(None, s)
    else if back then
      var first := Match(elems[|elems| - 1], s[|s| - 1]);
      var others := Peel(back, elems[..|elems| - 1], s[..|s| - 1]);
      Peeled(Both(first, others.bound), others.left)
    else
      var first := Match(elems[0], s[0]);
      var others := Peel(back, elems[1..], s[1..]);
      Peeled(Both(first, others.bound), others.left)
  }

  // ---- desugaring ---------------------------------------------------------

  /** One fixed piece off the front or the back; without a `rest`, and nothing left. */
  function SeqPiece(piece: Pattern, back: bool, rest: Option<Pat>): Pat
    requires IsPiece(piece) && Normal(piece)
    decreases piece, 0
  {
    match piece
    case Str(bytes) => StrPrefix(bytes, back, if rest.Some? then rest.value else PStr([]))
    case List(elems) => SeqView(back, DesugaredAll(elems), rest)
  }

  function DesugaredAll(elems: seq<Pattern>): (r: seq<Pat>)
    requires forall i :: 0 <= i < |elems| ==> Normal(elems[i])
    ensures |r| == |elems|
    decreases elems
  {
    if |elems| == 0 then [] else [Desugared(elems[0])] + DesugaredAll(elems[1..])
  }

  /** The back pieces around a middle, the last one outermost. */
  function StripBack(suf: seq<Pattern>, inner: Pat): Pat
    requires AllPieces(suf)
    decreases suf
  {
    if |suf| == 0 then inner else SeqPiece(suf[|suf| - 1], true, Some(StripBack(suf[..|suf| - 1], inner)))
  }

  /** The front pieces around what is left, the first one outermost. */
  function StripFront(pre: seq<Pattern>, inner: Option<Pat>): (r: Option<Pat>)
    requires AllPieces(pre)
    ensures |pre| > 0 ==> r.Some?
    decreases pre
  {
    if |pre| == 0 then inner else Some(SeqPiece(pre[0], false, StripFront(pre[1..], inner)))
  }

  function Desugared(p: Pattern): Pat
    requires Normal(p)
    decreases p, 1
  {
    match p
    case Wild => PWild
    case Name(x) => PName(x)
    case Number(n) => PNumber(n)
    case Str(bytes) => PStr(bytes)
    case List(_) => SeqPiece(p, false, None)
    case Concat(pre, mid, suf) =>
      StripFront(pre, if mid.Some? then Some(StripBack(suf, Desugared(mid.value))) else None).value
  }

  /** Lower a pattern: the strips are nested by two loops, and of the three ways the
      front end could stop, none is reachable. */
  method Desugar(p: Pattern) returns (r: Pat)
    requires Normal(p)
    ensures r == Desugared(p)
    decreases p, 1
  {
    match p {
      case Wild => r := PWild;
      case Name(x) => r := PName(x);
      case Number(n) => r := PNumber(n);
      case Str(bytes) => r := PStr(bytes);
      case List(_) => r := DesugarPiece(p, false, None);
      case Concat(pre, mid, suf) =>
        var inner: Option<Pat> := None;
        if mid.Some? {
          var m := Desugar(mid.value);
          inner := Some(m);
        }
        ghost var middle := inner;
        for i := 0 to |suf|
          invariant mid.Some? ==> inner == Some(StripBack(suf[..i], middle.value))
          invariant mid.None? ==> inner == None && suf == []
        {
          assert inner.Some?;
          var rest := inner.value;
          assert suf[..i + 1][..i] == suf[..i];
          var piece := DesugarPiece(suf[i], true, Some(rest));
          inner := Some(piece);
        }
        assert suf[..|suf|] == suf;
        ghost var backs := inner;
        var j := |pre|;
        assert pre[j..] == [];
        while j > 0
          invariant j <= |pre| && inner == StripFront(pre[j..], backs)
        {
          j := j - 1;
          assert pre[j..][1..] == pre[j + 1..];
          var piece := DesugarPiece(pre[j], false, inner);
          inner := Some(piece);
        }
        assert pre[0..] == pre && inner.Some?;
        r := inner.value;
    }
  }

  method DesugarPiece(piece: Pattern, back: bool, rest: Option<Pat>) returns (r: Pat)
    requires IsPiece(piece) && Normal(piece)
    ensures r == SeqPiece(piece, back, rest)
    decreases piece, 0
  {
    match piece {
      case Str(bytes) => r := StrPrefix(bytes, back, if rest.Some? then rest.value else PStr([]));
      case List(elems) =>
        var out := DesugarElems(elems);
        r := SeqView(back, out, rest);
      case _ => assert false;
    }
  }

  method DesugarElems(elems: seq<Pattern>) returns (out: seq<Pat>)
    requires forall i :: 0 <= i < |elems| ==> Normal(elems[i])
    ensures out == DesugaredAll(elems)
    decreases elems, 0
  {
    hide Normal, Desugared;
    out := [];
    for i := 0 to |elems|
      invariant |out| == i
      invariant out + DesugaredAll(elems[i..]) == DesugaredAll(elems)
    {
      var e := Desugar(elems[i]);
      assert elems[i..][1..] == elems[i + 1..];
      out := out + [e];
    }
  }

  // ---- the strips match what the pattern does -----------------------------

  /** A core pattern matches what a pattern fits. */
  lemma {:induction false} DesugaredMatches(p: Pattern, v: Val)
    requires Normal(p)
    ensures Match(Desugared(p), v) == Fit(p, v)
    decreases p, 2
  {
    match p
    case List(elems) =>
      if v.Seq? {
        FrontStrip(p, None, v.items);
        if |v.items| == |elems| {
          assert v.items[..|elems|] == v.items;
          BothNothing(FitAll(elems, v.items));
        }
      }
    case Concat(pre, mid, suf) => ConcatMatches(pre, mid, suf, v);
    case _ =>
  }

  /** A piece off the front, and the rest. */
  lemma {:induction false} FrontStrip(piece: Pattern, rest: Option<Pat>, s: seq<Val>)
    requires IsPiece(piece) && Normal(piece)
    ensures var n := PieceLen(piece);
            Match(SeqPiece(piece, false, rest), Seq(s)) ==
            if |s| < n then None else Both(Fit(piece, Seq(s[..n])), MatchRest(rest, s[n..]))
    decreases piece, 0
  {
    var n := PieceLen(piece);
    if |s| >= n {
      if piece.Str? {
        BothNothing(MatchRest(rest, s[n..]));
      } else {
        PeelFront(piece.elems, s);
        if rest.None? {
          BothNothing(FitAll(piece.elems, s[..n]));
        }
      }
    }
  }

  /** What is left matches the rest, or is nothing where there is none. */
  function MatchRest(rest: Option<Pat>, s: seq<Val>): Option<Bindings> {
    if rest.Some? then Match(rest.value, Seq(s)) else if s == [] then Some(multiset{}) else None
  }

  /** A piece off the back, and the rest. */
  lemma {:induction false} BackStrip(piece: Pattern, rest: Pat, s: seq<Val>)
    requires IsPiece(piece) && Normal(piece)
    ensures var n := PieceLen(piece);
            Match(SeqPiece(piece, true, Some(rest)), Seq(s)) ==
            if |s| < n then None else Both(Match(rest, Seq(s[..|s| - n])), Fit(piece, Seq(s[|s| - n..])))
    decreases piece, 0
  {
    hide Match, Fit, Both, Peel, FitAll, Desugared, DesugaredAll;
    match piece
    case Str(bytes) => BackText(bytes, rest, s);
    case List(elems) =>
      PeelBack(elems, s);
      BackElems(elems, DesugaredAll(elems), rest, s);
  }

  lemma BackText(bytes: seq<nat>, rest: Pat, s: seq<Val>)
    ensures Match(StrPrefix(bytes, true, rest), Seq(s)) ==
            if |s| < |bytes| then None else Both(Match(rest, Seq(s[..|s| - |bytes|])), Fit(Str(bytes), Seq(s[|s| - |bytes|..])))
  {
    if |s| >= |bytes| {
      BothNothing(Match(rest, Seq(s[..|s| - |bytes|])));
    }
  }

  lemma BackElems(elems: seq<Pattern>, pats: seq<Pat>, rest: Pat, s: seq<Val>)
    requires |pats| == |elems| && Peel(true, pats, s).bound == if |s| < |elems| then None else FitAll(elems, s[|s| - |elems|..])
    ensures Match(SeqView(true, pats, Some(rest)), Seq(s)) ==
            if |s| < |elems| then None else Both(Match(rest, Seq(s[..|s| - |elems|])), Fit(List(elems), Seq(s[|s| - |elems|..])))
  {
    hide *;
    BackView(pats, rest, s);
    if |s| >= |elems| {
      var left, tail := s[..|s| - |elems|], s[|s| - |elems|..];
      ListFits(elems, tail);
      BothSwap(Match(rest, Seq(left)), FitAll(elems, tail));
    }
  }

  lemma ListFits(elems: seq<Pattern>, s: seq<Val>)
    requires |elems| == |s|
    ensures Fit(List(elems), Seq(s)) == FitAll(elems, s)
  {
    hide FitAll;
  }

  lemma BackView(pats: seq<Pat>, rest: Pat, s: seq<Val>)
    ensures Match(SeqView(true, pats, Some(rest)), Seq(s)) ==
            if |s| < |pats| then None else Both(Peel(true, pats, s).bound, Match(rest, Seq(s[..|s| - |pats|])))
  {
    hide Peel;
  }

  lemma {:induction false} PeelFront(elems: seq<Pattern>, s: seq<Val>)
    requires forall i :: 0 <= i < |elems| ==> Normal(elems[i])
    ensures Peel(false, DesugaredAll(elems), s).bound == if |s| < |elems| then None else FitAll(elems, s[..|elems|])
    decreases elems
  {
    if |elems| > 0 && |s| > 0 {
      DesugaredMatches(elems[0], s[0]);
      PeelFront(elems[1..], s[1..]);
      assert DesugaredAll(elems)[1..] == DesugaredAll(elems[1..]);
      if |s| >= |elems| {
        assert s[..|elems|][1..] == s[1..][..|elems| - 1];
      }
    }
  }

  lemma {:induction false} DesugaredLast(elems: seq<Pattern>)
    requires |elems| > 0 && forall i :: 0 <= i < |elems| ==> Normal(elems[i])
    ensures var n := |elems| - 1; DesugaredAll(elems)[..n] == DesugaredAll(elems[..n]) && DesugaredAll(elems)[n] == Desugared(elems[n])
    decreases elems
  {
    if |elems| > 1 {
      DesugaredLast(elems[1..]);
      assert elems[..|elems| - 1][1..] == elems[1..][..|elems| - 2];
    }
  }

  lemma {:induction false} PeelBack(elems: seq<Pattern>, s: seq<Val>)
    requires forall i :: 0 <= i < |elems| ==> Normal(elems[i])
    ensures Peel(true, DesugaredAll(elems), s).bound == if |s| < |elems| then None else FitAll(elems, s[|s| - |elems|..])
    decreases elems
  {
    if |elems| > 0 && |s| > 0 {
      hide *;
      var n, m := |elems| - 1, |s| - 1;
      DesugaredLast(elems);
      DesugaredMatches(elems[n], s[m]);
      PeelBack(elems[..n], s[..m]);
      PeelLast(elems, DesugaredAll(elems), s);
    } else {
      hide Normal, Match, Both;
    }
  }

  lemma PeelLast(elems: seq<Pattern>, pats: seq<Pat>, s: seq<Val>)
    requires |elems| == |pats| > 0 && |s| > 0
    requires Match(pats[|pats| - 1], s[|s| - 1]) == Fit(elems[|elems| - 1], s[|s| - 1])
    requires var n, t := |elems| - 1, s[..|s| - 1];
             Peel(true, pats[..n], t).bound == if |t| < n then None else FitAll(elems[..n], t[|t| - n..])
    ensures Peel(true, pats, s).bound == if |s| < |elems| then None else FitAll(elems, s[|s| - |elems|..])
  {
    hide Fit, FitAll, Both, Match;
    var n, m := |elems| - 1, |s| - 1;
    if m >= n {
      FitAllLast(elems, s[m - n..]);
      assert s[..m][m - n..] == s[m - n..][..n];
    } else {
      NoBoth(Fit(elems[n], s[m]), None);
    }
  }

  lemma FitAllLast(elems: seq<Pattern>, items: seq<Val>)
    requires |elems| == |items| > 0
    ensures var n := |elems| - 1; FitAll(elems, items) == Both(Fit(elems[n], items[n]), FitAll(elems[..n], items[..n]))
  {
    hide FitAll, Both, Fit;
    var n := |elems| - 1;
    assert elems == elems[..n] + [elems[n]] && items == items[..n] + [items[n]];
    FitAllAppend(elems[..n], [elems[n]], items[..n], [items[n]]);
    OneElement(elems[n], items[n]);
    BothSwap(FitAll(elems[..n], items[..n]), Fit(elems[n], items[n]));
  }

  lemma OneElement(p: Pattern, v: Val)
    ensures FitAll([p], [v]) == Fit(p, v)
  {
    assert [p][1..] == [] && [v][1..] == [];
    BothNothing(Fit(p, v));
  }

  /** The back strips match a middle and the back pieces. */
  lemma {:induction false} BackStrips(suf: seq<Pattern>, inner: Pat, s: seq<Val>)
    requires AllPieces(suf)
    ensures Match(StripBack(suf, inner), Seq(s)) ==
            if |s| < Len(suf) then None else Both(Match(inner, Seq(s[..|s| - Len(suf)])), FitPieces(suf, s[|s| - Len(suf)..]))
    decreases suf
  {
    hide *;
    if |suf| == 0 {
      BackNone(suf, inner, s);
    } else {
      var front, last := suf[..|suf| - 1], suf[|suf| - 1];
      PiecesInit(suf);
      assert suf == front + [last];
      BackUnfold(suf, inner);
      BackStrip(last, StripBack(front, inner), s);
      if |s| >= PieceLen(last) {
        BackStrips(front, inner, s[..|s| - PieceLen(last)]);
      }
      BackJoined(front, last, Match(StripBack(suf, inner), Seq(s)), inner, s);
    }
  }

  lemma BackNone(suf: seq<Pattern>, inner: Pat, s: seq<Val>)
    requires suf == []
    ensures Len(suf) == 0 && StripBack(suf, inner) == inner
    ensures Match(inner, Seq(s)) == Both(Match(inner, Seq(s[..|s| - Len(suf)])), FitPieces(suf, s[|s| - Len(suf)..]))
  {
    hide Match, Both;
    assert s[..|s|] == s && s[|s|..] == [];
    BothNothing(Match(inner, Seq(s)));
  }

  lemma PiecesInit(suf: seq<Pattern>)
    requires AllPieces(suf) && |suf| > 0
    ensures var n := |suf| - 1; AllPieces(suf[..n]) && IsPiece(suf[n]) && Normal(suf[n])
  {
    hide Normal;
  }

  lemma BackUnfold(suf: seq<Pattern>, inner: Pat)
    requires AllPieces(suf) && |suf| > 0
    ensures var n := |suf| - 1; StripBack(suf, inner) == SeqPiece(suf[n], true, Some(StripBack(suf[..n], inner)))
  {
  }

  lemma BackJoined(front: seq<Pattern>, last: Pattern, r: Option<Bindings>, inner: Pat, s: seq<Val>)
    requires var n := PieceLen(last);
             r == if |s| < n then None
                  else
                    var t := s[..|s| - n];
                    Both(if |t| < Len(front) then None else Both(Match(inner, Seq(t[..|t| - Len(front)])), FitPieces(front, t[|t| - Len(front)..])),
                         Fit(last, Seq(s[|s| - n..])))
    ensures var suf := front + [last];
            r == if |s| < Len(suf) then None else Both(Match(inner, Seq(s[..|s| - Len(suf)])), FitPieces(suf, s[|s| - Len(suf)..]))
  {
    hide Match, Fit, FitPieces;
    var n, a := PieceLen(last), Len(front);
    LenAppend(front, [last]);
    assert Len([last]) == n;
    if |s| >= n + a {
      var t, w := s[..|s| - n], s[|s| - n..];
      var u := t[|t| - a..];
      OnePiece(last, w);
      FitAppend(front, [last], u, w);
      assert s[|s| - (a + n)..] == u + w && s[..|s| - (a + n)] == t[..|t| - a];
      BothAssoc(Match(inner, Seq(t[..|t| - a])), FitPieces(front, u), Fit(last, Seq(w)));
    }
  }

  /** The front strips match the front pieces and what is left. */
  lemma {:induction false} FrontStrips(pre: seq<Pattern>, inner: Option<Pat>, s: seq<Val>)
    requires AllPieces(pre)
    ensures MatchRest(StripFront(pre, inner), s) ==
            if |s| < Len(pre) then None else Both(FitPieces(pre, s[..Len(pre)]), MatchRest(inner, s[Len(pre)..]))
    decreases pre
  {
    if |pre| == 0 {
      assert s[0..] == s;
      BothNothing(MatchRest(inner, s));
    } else {
      var n, rest := PieceLen(pre[0]), pre[1..];
      FrontStrip(pre[0], StripFront(rest, inner), s);
      hide Match, Fit, Both, SeqPiece;
      if |s| >= n {
        var u, t := s[..n], s[n..];
        FrontStrips(rest, inner, t);
        if |t| >= Len(rest) {
          FrontOf(pre, s);
          BothAssoc(Fit(pre[0], Seq(u)), FitPieces(rest, t[..Len(rest)]), MatchRest(inner, t[Len(rest)..]));
          assert t[Len(rest)..] == s[Len(pre)..];
        } else {
          NoBoth(Fit(pre[0], Seq(u)), MatchRest(StripFront(rest, inner), t));
        }
      }
    }
  }

  lemma FrontOf(pre: seq<Pattern>, s: seq<Val>)
    requires |pre| > 0 && |s| >= Len(pre)
    ensures var n, rest := PieceLen(pre[0]), pre[1..];
            FitPieces(pre, s[..Len(pre)]) == Both(Fit(pre[0], Seq(s[..n])), FitPieces(rest, s[n..][..Len(rest)]))
  {
    hide Both, Fit;
    var n, rest := PieceLen(pre[0]), pre[1..];
    var whole := s[..Len(pre)];
    assert whole[..n] == s[..n] && whole[n..] == s[n..][..Len(rest)];
  }

  lemma {:induction false} ConcatMatches(pre: seq<Pattern>, mid: Option<Pattern>, suf: seq<Pattern>, v: Val)
    requires Normal(Concat(pre, mid, suf))
    ensures Match(Desugared(Concat(pre, mid, suf)), v) == Fit(Concat(pre, mid, suf), v)
    decreases Concat(pre, mid, suf), 1
  {
    if v.Seq? {
      var s, a, z := v.items, Len(pre), Len(suf);
      if mid.Some? && |s| >= a + z {
        DesugaredMatches(mid.value, Seq(s[a..|s| - z]));
        OpenStrips(pre, mid.value, suf, s);
      } else {
        ClosedStrips(pre, mid, suf, s);
      }
    } else if |pre| > 0 {
      StripNeedsSequence(pre[0], false, StripFront(pre[1..], Inside(mid, suf)), v);
    } else {
      StripNeedsSequence(suf[|suf| - 1], true, Some(StripBack(suf[..|suf| - 1], Desugared(mid.value))), v);
    }
  }

  lemma StripNeedsSequence(piece: Pattern, back: bool, rest: Option<Pat>, v: Val)
    requires IsPiece(piece) && Normal(piece) && !v.Seq?
    ensures Match(SeqPiece(piece, back, rest), v).None?
  {
  }

  function Inside(mid: Option<Pattern>, suf: seq<Pattern>): Option<Pat>
    requires (mid.Some? ==> Normal(mid.value)) && AllPieces(suf)
  {
    if mid.Some? then Some(StripBack(suf, Desugared(mid.value))) else None
  }

  /** All the strips around a middle that matches as its pattern does. */
  lemma OpenStrips(pre: seq<Pattern>, m: Pattern, suf: seq<Pattern>, s: seq<Val>)
    requires Normal(Concat(pre, Some(m), suf)) && |s| >= Len(pre) + Len(suf)
    requires var b := Seq(s[Len(pre)..|s| - Len(suf)]); Match(Desugared(m), b) == Fit(m, b)
    ensures MatchRest(StripFront(pre, Inside(Some(m), suf)), s) == Fit(Concat(pre, Some(m), suf), Seq(s))
    decreases Concat(pre, Some(m), suf), 0
  {
    hide *;
    NormalParts(pre, m, suf);
    InsideIs(m, suf);
    var a, z := Len(pre), Len(suf);
    var u, v, w := s[..a], s[a..|s| - z], s[|s| - z..];
    assert s == u + v + w && s[a..] == v + w && (v + w)[..|v|] == v && (v + w)[|v|..] == w;
    FrontStrips(pre, Inside(Some(m), suf), s);
    BackStrips(suf, Desugared(m), s[a..]);
    RestMatches(StripBack(suf, Desugared(m)), s[a..]);
    FitOpen(pre, m, suf, u, v, w);
    ChainIs(Chain(pre, Some(m), suf), s);
    BothAssoc(FitPieces(pre, u), Fit(m, Seq(v)), FitPieces(suf, w));
  }

  lemma NormalParts(pre: seq<Pattern>, m: Pattern, suf: seq<Pattern>)
    requires Normal(Concat(pre, Some(m), suf))
    ensures AllPieces(pre) && AllPieces(suf) && Normal(m)
  {
  }

  lemma InsideIs(m: Pattern, suf: seq<Pattern>)
    requires Normal(m) && AllPieces(suf)
    ensures Inside(Some(m), suf) == Some(StripBack(suf, Desugared(m)))
  {
    hide Desugared, StripBack, Normal, AllPieces;
  }

  lemma RestMatches(rest: Pat, s: seq<Val>)
    ensures MatchRest(Some(rest), s) == Match(rest, Seq(s))
  {
  }

  lemma ChainIs(c: Chain, s: seq<Val>)
    ensures FitChain(c, s) == Fit(Concat(c.pre, c.mid, c.suf), Seq(s))
  {
  }

  /** Without a middle, or too short a sequence for the pieces. */
  lemma ClosedStrips(pre: seq<Pattern>, mid: Option<Pattern>, suf: seq<Pattern>, s: seq<Val>)
    requires Normal(Concat(pre, mid, suf)) && (mid.Some? ==> |s| < Len(pre) + Len(suf))
    ensures MatchRest(StripFront(pre, Inside(mid, suf)), s) == Fit(Concat(pre, mid, suf), Seq(s))
    decreases Concat(pre, mid, suf), 0
  {
    hide Match, Both, SeqPiece, Desugared, FitPieces, StripFront, StripBack;
    var a := Len(pre);
    FrontStrips(pre, Inside(mid, suf), s);
    if mid.Some? {
      if |s| >= a {
        BackStrips(suf, Desugared(mid.value), s[a..]);
        NoBoth(FitPieces(pre, s[..a]), MatchRest(Inside(mid, suf), s[a..]));
      }
    } else {
      FitClosed(pre, s);
      if |s| >= a {
        NoBoth(FitPieces(pre, s[..a]), MatchRest(None, s[a..]));
        BothNothing(FitPieces(pre, s[..a]));
        if |s| == a {
          assert s[..a] == s && s[a..] == [];
        }
      }
    }
  }

  // ---- from the source ----------------------------------------------------

  /** A sequence pattern as written. */
  datatype Source =
    | Any
    | Binder(name: nat)
    | Numeral(n: int)
    | Text(bytes: seq<nat>)
    | Items(elems: seq<Source>)
    | Cat(left: Source, right: Source)
      /** `head :: tail` */
    | Cons(head: Source, tail: Source)

  /** What a source pattern matches: a `++` matches what some split of the sequence
      matches on both sides. */
  ghost predicate Means(p: Source, v: Val, b: Bindings)
    decreases p, 2
  {
    match p
    case Any => b == multiset{}
    case Binder(x) => b == multiset{(x, v)}
    case Numeral(n) => v == Num(n) && b == multiset{}
    case Text(bytes) => v == Seq(Bytes(bytes)) && b == multiset{}
    case Items(elems) => v.Seq? && |v.items| == |elems| && MeansAll(elems, v.items, b)
    case Cat(_, _) => v.Seq? && SomeSplit(p, v.items, b)
    case Cons(head, tail) =>
      v.Seq? && |v.items| > 0 && exists b1, b2 :: HeadAndTail(p, v.items, b1, b2) && b == b1 + b2
  }

  ghost predicate HeadAndTail(p: Source, s: seq<Val>, b1: Bindings, b2: Bindings)
    requires p.Cons? && |s| > 0
    decreases p, 1
  {
    Means(p.head, s[0], b1) && Means(p.tail, Seq(s[1..]), b2)
  }

  ghost predicate SomeSplit(p: Source, s: seq<Val>, b: Bindings)
    requires p.Cat?
    decreases p, 1
  {
    exists k: nat, b1, b2 :: k <= |s| && Splits(p, s, k, b1, b2) && b == b1 + b2
  }

  ghost predicate Splits(p: Source, s: seq<Val>, k: nat, b1: Bindings, b2: Bindings)
    requires p.Cat? && k <= |s|
    decreases p, 0
  {
    Means(p.left, Seq(s[..k]), b1) && Means(p.right, Seq(s[k..]), b2)
  }

  ghost predicate MeansAll(elems: seq<Source>, items: seq<Val>, b: Bindings)
    requires |elems| == |items|
    decreases elems, 0
  {
    if |elems| == 0 then b == multiset{}
    else exists b1, b2 :: Means(elems[0], items[0], b1) && MeansAll(elems[1..], items[1..], b2) && b == b1 + b2
  }

  /** The pattern the parser builds, or nothing when it reports an error. */
  function Parsed(p: Source): Option<Pattern>
    decreases p
  {
    match p
    case Any => Some(Wild)
    case Binder(x) => Some(Name(x))
    case Numeral(n) => Some(Number(n))
    case Text(bytes) => Some(Str(bytes))
    case Items(elems) =>
      var es := ParsedAll(elems);
      if es.Some? then Some(List(es.value)) else None
    case Cat(left, right) =>
      var l, r := Parsed(left), Parsed(right);
      if l.None? || r.None? then None else Joined(l.value, r.value)
    case Cons(head, tail) =>
      var h, t := Parsed(head), Parsed(tail);
      if h.None? || t.None? then None else Joined(List([h.value]), t.value)
  }

  function ParsedAll(elems: seq<Source>): (r: Option<seq<Pattern>>)
    ensures r.Some? ==> |r.value| == |elems|
    decreases elems
  {
    if |elems| == 0 then Some([])
    else
      var e, rest := Parsed(elems[0]), ParsedAll(elems[1..]);
      if e.Some? && rest.Some? then Some([e.value] + rest.value) else None
  }

  /** How many parts of unknown length a pattern has side by side. */
  function Holes(p: Source): nat {
    match p
    case Text(_) => 0
    case Items(_) => 0
    case Cat(left, right) => Holes(left) + Holes(right)
    case Cons(_, tail) => Holes(tail)
    case _ => 1
  }

  /** No `++` anywhere has two. */
  predicate Unambiguous(p: Source)
    decreases p
  {
    match p
    case Items(elems) => forall i :: 0 <= i < |elems| ==> Unambiguous(elems[i])
    case Cat(left, right) => Unambiguous(left) && Unambiguous(right) && Holes(left) + Holes(right) <= 1
    case Cons(head, tail) => Unambiguous(head) && Unambiguous(tail)
    case _ => true
  }

  /** What the parser accepts, and that all it builds is normal. */
  lemma {:induction false} ParsedWhen(p: Source)
    ensures Parsed(p).Some? <==> Unambiguous(p)
    ensures Parsed(p).Some? ==> Normal(Parsed(p).value) && Holes(p) <= 1 && (Holes(p) == 1 <==> ChainOf(Parsed(p).value).mid.Some?)
    decreases p
  {
    match p
    case Items(elems) => ParsedAllWhen(elems);
    case Cat(left, right) =>
      ParsedWhen(left);
      ParsedWhen(right);
      if Parsed(left).Some? && Parsed(right).Some? {
        JoinedHole(Parsed(left).value, Parsed(right).value);
      }
    case Cons(head, tail) =>
      ParsedWhen(head);
      ParsedWhen(tail);
      if Parsed(head).Some? && Parsed(tail).Some? {
        JoinedHole(List([Parsed(head).value]), Parsed(tail).value);
      }
    case _ =>
  }

  lemma {:induction false} ParsedAllWhen(elems: seq<Source>)
    ensures ParsedAll(elems).Some? <==> forall i :: 0 <= i < |elems| ==> Unambiguous(elems[i])
    ensures ParsedAll(elems).Some? ==> forall i :: 0 <= i < |elems| ==> Normal(ParsedAll(elems).value[i])
    decreases elems
  {
    if |elems| > 0 {
      ParsedWhen(elems[0]);
      ParsedAllWhen(elems[1..]);
      assert forall i :: 1 <= i < |elems| ==> elems[i] == elems[1..][i - 1];
    }
  }

  /** A joined chain has the hole of either side. */
  lemma JoinedHole(left: Pattern, right: Pattern)
    requires Normal(left) && Normal(right)
    ensures Joined(left, right).None? <==> ChainOf(left).mid.Some? && ChainOf(right).mid.Some?
    ensures Joined(left, right).Some? ==>
      Normal(Joined(left, right).value) && (ChainOf(Joined(left, right).value).mid.Some? <==> ChainOf(left).mid.Some? || ChainOf(right).mid.Some?)
  {
    var l, r := ChainOf(left), ChainOf(right);
    hide ChainOf;
    if Linked(l, r).Some? {
      JoinedFits(left, right, Num(0), multiset{});
      ChainIsTidy(left);
      ChainIsTidy(right);
      LinkedTidy(l, r);
      hide Normal, Tidy;
      FromChainHole(Linked(l, r).value);
    }
  }

  lemma FromChainHole(c: Chain)
    requires Tidy(c)
    ensures ChainOf(FromChain(c)).mid == c.mid
  {
    MergedIsPieces(c.pre);
  }

  /** A parsed pattern matches what its source means. */
  lemma {:induction false} ParsedMeans(p: Source, v: Val, b: Bindings)
    requires Parsed(p).Some?
    ensures Fit(Parsed(p).value, v) == Some(b) <==> Means(p, v, b)
    decreases p
  {
    match p
    case Items(elems) =>
      if v.Seq? && |v.items| == |elems| {
        ParsedAllMeans(elems, v.items, b);
      }
    case Cat(left, right) => CatMeans(left, right, v, b);
    case Cons(head, tail) => ConsMeans(head, tail, v, b);
    case _ =>
  }

  lemma {:induction false} ParsedAllMeans(elems: seq<Source>, items: seq<Val>, b: Bindings)
    requires ParsedAll(elems).Some? && |elems| == |items|
    ensures FitAll(ParsedAll(elems).value, items) == Some(b) <==> MeansAll(elems, items, b)
    decreases elems, 0
  {
    if |elems| > 0 {
      var e, rest := Parsed(elems[0]).value, ParsedAll(elems[1..]).value;
      assert ParsedAll(elems).value == [e] + rest && ([e] + rest)[1..] == rest;
      forall b1
        ensures Fit(e, items[0]) == Some(b1) <==> Means(elems[0], items[0], b1)
      {
        ParsedMeans(elems[0], items[0], b1);
      }
      forall b2
        ensures FitAll(rest, items[1..]) == Some(b2) <==> MeansAll(elems[1..], items[1..], b2)
      {
        ParsedAllMeans(elems[1..], items[1..], b2);
      }
    }
  }

  lemma {:induction false} CatMeans(left: Source, right: Source, v: Val, b: Bindings)
    requires Parsed(Cat(left, right)).Some?
    ensures Fit(Parsed(Cat(left, right)).value, v) == Some(b) <==> Means(Cat(left, right), v, b)
    decreases Cat(left, right), 0
  {
    var l, r := Parsed(left).value, Parsed(right).value;
    ParsedWhen(left);
    ParsedWhen(right);
    JoinedFits(l, r, v, b);
    if v.Seq? {
      forall k: nat, b1, b2 | k <= |v.items|
        ensures Splits(Cat(left, right), v.items, k, b1, b2) <==> Fit(l, Seq(v.items[..k])) == Some(b1) && Fit(r, Seq(v.items[k..])) == Some(b2)
      {
        ParsedMeans(left, Seq(v.items[..k]), b1);
        ParsedMeans(right, Seq(v.items[k..]), b2);
      }
      hide Fit, Parsed, Joined;
      SplitsBoth(Cat(left, right), l, r, v.items, b);
    }
  }

  /** Splitting by relation and by function. */
  lemma SplitsBoth(p: Source, l: Pattern, r: Pattern, s: seq<Val>, b: Bindings)
    requires p.Cat?
    requires forall k: nat, b1, b2 :: k <= |s| ==>
               (Splits(p, s, k, b1, b2) <==> Fit(l, Seq(s[..k])) == Some(b1) && Fit(r, Seq(s[k..])) == Some(b2))
    ensures (exists k :: 0 <= k <= |s| && Both(Fit(l, Seq(s[..k])), Fit(r, Seq(s[k..]))) == Some(b)) <==> Means(p, Seq(s), b)
  {
    hide Fit;
    if k :| 0 <= k <= |s| && Both(Fit(l, Seq(s[..k])), Fit(r, Seq(s[k..]))) == Some(b) {
      assert Splits(p, s, k, Fit(l, Seq(s[..k])).value, Fit(r, Seq(s[k..])).value);
    }
    if Means(p, Seq(s), b) {
      assert SomeSplit(p, s, b);
      var k: nat, b1, b2 :| k <= |s| && Splits(p, s, k, b1, b2) && b == b1 + b2;
      assert Both(Fit(l, Seq(s[..k])), Fit(r, Seq(s[k..]))) == Some(b);
    }
  }

  lemma {:induction false} ConsMeans(head: Source, tail: Source, v: Val, b: Bindings)
    requires Parsed(Cons(head, tail)).Some?
    ensures Fit(Parsed(Cons(head, tail)).value, v) == Some(b) <==> Means(Cons(head, tail), v, b)
    decreases Cons(head, tail), 0
  {
    var h, t := Parsed(head).value, Parsed(tail).value;
    ParsedWhen(head);
    ParsedWhen(tail);
    JoinedFits(List([h]), t, v, b);
    if v.Seq? {
      var s := v.items;
      if |s| > 0 {
        forall b1, b2
          ensures HeadAndTail(Cons(head, tail), s, b1, b2) <==> Fit(h, s[0]) == Some(b1) && Fit(t, Seq(s[1..])) == Some(b2)
        {
          ParsedMeans(head, s[0], b1);
          ParsedMeans(tail, Seq(s[1..]), b2);
        }
      }
      hide Fit, Parsed, Joined, Normal;
      HeadThenTail(Cons(head, tail), h, t, s, b);
    }
  }

  lemma HeadFits(h: Pattern, s: seq<Val>, k: nat)
    requires k <= |s|
    ensures Fit(List([h]), Seq(s[..k])) == if k == 1 then Fit(h, s[0]) else None
  {
    if k == 1 {
      assert s[..1] == [s[0]];
      OneElement(h, s[0]);
    }
  }

  lemma HeadThenTail(p: Source, h: Pattern, t: Pattern, s: seq<Val>, b: Bindings)
    requires p.Cons?
    requires |s| > 0 ==> forall b1, b2 :: HeadAndTail(p, s, b1, b2) <==> Fit(h, s[0]) == Some(b1) && Fit(t, Seq(s[1..])) == Some(b2)
    ensures (exists k :: 0 <= k <= |s| && Both(Fit(List([h]), Seq(s[..k])), Fit(t, Seq(s[k..]))) == Some(b)) <==> Means(p, Seq(s), b)
  {
    hide Fit, Both, HeadAndTail;
    if k :| 0 <= k <= |s| && Both(Fit(List([h]), Seq(s[..k])), Fit(t, Seq(s[k..]))) == Some(b) {
      HeadFits(h, s, k);
      BothSome(Fit(List([h]), Seq(s[..k])), Fit(t, Seq(s[k..])), b);
      assert HeadAndTail(p, s, Fit(h, s[0]).value, Fit(t, Seq(s[1..])).value);
    }
    if Means(p, Seq(s), b) {
      var b1, b2 :| HeadAndTail(p, s, b1, b2) && b == b1 + b2;
      HeadFits(h, s, 1);
      BothSome(Fit(List([h]), Seq(s[..1])), Fit(t, Seq(s[1..])), b);
      assert Both(Fit(List([h]), Seq(s[..1])), Fit(t, Seq(s[1..]))) == Some(b);
    }
  }

  lemma BothSome(x: Option<Bindings>, y: Option<Bindings>, b: Bindings)
    ensures Both(x, y) == Some(b) <==> x.Some? && y.Some? && b == x.value + y.value
  {
  }

  /** From source to strips: a pattern without two parts of unknown length side by side
      is accepted, and its strips match exactly what the source means. */
  lemma StripsMeanSource(p: Source, v: Val, b: Bindings)
    ensures Parsed(p).Some? <==> Unambiguous(p)
    ensures Parsed(p).Some? ==> Normal(Parsed(p).value) && (Match(Desugared(Parsed(p).value), v) == Some(b) <==> Means(p, v, b))
  {
    ParsedWhen(p);
    if Parsed(p).Some? {
      ParsedMeans(p, v, b);
      DesugaredMatches(Parsed(p).value, v);
    }
  }
}
