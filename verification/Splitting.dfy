/** Why a `++` pattern means what it says: matching it is splitting the sequence, from
    the source text to the nested strips the front end turns it into. */
module Splitting {
  import opened Common
  import opened Patterns

  // ---- chains match at one split ------------------------------------------

  function FitChain(c: Chain, s: seq<Val>): Option<Bindings> {
    Fit(Concat(c.pre, c.mid, c.suf), Seq(s))
  }

  ghost predicate AllPieces(pieces: seq<Pattern>) {
    forall i :: 0 <= i < |pieces| ==> IsPiece(pieces[i]) && Normal(pieces[i])
  }

  /** A chain of parsed parts: fixed pieces, a part that is none, and no suffix without
      one. */
  ghost predicate Tidy(c: Chain) {
    && AllPieces(c.pre) && AllPieces(c.suf)
    && (c.mid.None? ==> c.suf == [])
    && (c.mid.Some? ==> Normal(c.mid.value) && !IsPiece(c.mid.value) && !c.mid.value.Concat?)
  }

  /** What fitting a chain comes to. */
  lemma FitConcat(c: Chain, s: seq<Val>)
    ensures var a, z := Len(c.pre), Len(c.suf);
            FitChain(c, s) ==
            if |s| < a + z || (c.mid.None? && |s| != a + z) then None
            else
              Both(Both(FitPieces(c.pre, s[..a]), if c.mid.Some? then Fit(c.mid.value, Seq(s[a..|s| - z])) else Some(multiset{})),
                   FitPieces(c.suf, s[|s| - z..]))
  {
    hide FitPieces, Len, Both;
  }

  lemma FitOpen(pre: seq<Pattern>, m: Pattern, suf: seq<Pattern>, a: seq<Val>, b: seq<Val>, z: seq<Val>)
    requires |a| == Len(pre) && |z| == Len(suf)
    ensures FitChain(Chain(pre, Some(m), suf), a + b + z) == Both(Both(FitPieces(pre, a), Fit(m, Seq(b))), FitPieces(suf, z))
  {
    hide *;
    var s := a + b + z;
    FitConcat(Chain(pre, Some(m), suf), s);
    assert s[..|a|] == a && s[|a|..|s| - |z|] == b && s[|s| - |z|..] == z;
  }

  lemma NoPieces()
    ensures Len([]) == 0 && FitPieces([], []) == Some(multiset{})
  {
  }

  lemma FitClosed(pre: seq<Pattern>, s: seq<Val>)
    ensures FitChain(Chain(pre, None, []), s) == if |s| == Len(pre) then FitPieces(pre, s) else None
  {
    hide *;
    NoPieces();
    FitConcat(Chain(pre, None, []), s);
    if |s| == Len(pre) {
      assert s[..|s|] == s && s[|s|..] == [];
      BothNothing(FitPieces(pre, s));
    }
  }

  /** Where two linked chains divide a sequence of length `n`. */
  function Cut(l: Chain, r: Chain, n: nat): int {
    if l.mid.Some? then n - Len(r.pre) else Len(l.pre)
  }

  function FitAt(l: Chain, r: Chain, s: seq<Val>, k: nat): Option<Bindings>
    requires k <= |s|
  {
    Both(FitChain(l, s[..k]), FitChain(r, s[k..]))
  }

  /** Two chains both match at most where the fixed one's length says. */
  lemma OnlyCut(l: Chain, r: Chain, s: seq<Val>, k: nat)
    requires Tidy(l) && Tidy(r) && Linked(l, r).Some? && k <= |s| && k != Cut(l, r, |s|)
    ensures FitAt(l, r, s, k).None?
  {
    if l.mid.Some? {
      FitClosed(r.pre, s[k..]);
    } else {
      FitClosed(l.pre, s[..k]);
    }
  }

  /** The linked chain matches exactly what the two match at the cut. */
  lemma LinkedFits(l: Chain, r: Chain, s: seq<Val>)
    requires Tidy(l) && Tidy(r) && Linked(l, r).Some?
    ensures var c, k := Linked(l, r).value, Cut(l, r, |s|);
            Tidy(c) && FitChain(c, s) == if 0 <= k <= |s| then FitAt(l, r, s, k) else None
  {
    LinkedLens(l, r);
    var k := Cut(l, r, |s|);
    if !(0 <= k <= |s|) {
    } else if l.mid.Some? {
      LeftOpen(l, r, s[..k], s[k..]);
      assert s == s[..k] + s[k..];
    } else if r.mid.Some? {
      RightOpen(l, r, s[..k], s[k..]);
      assert s == s[..k] + s[k..];
    } else {
      NoneOpen(l, r, s[..k], s[k..]);
      assert s == s[..k] + s[k..];
    }
  }

  lemma LinkedLens(l: Chain, r: Chain)
    requires Tidy(l) && Tidy(r) && Linked(l, r).Some?
    ensures var c := Linked(l, r).value;
            && Tidy(c)
            && Len(c.pre) == (if l.mid.Some? then Len(l.pre) else Len(l.pre) + Len(r.pre))
            && Len(c.suf) == (if l.mid.Some? then Len(l.suf) + Len(r.pre) else Len(r.suf))
  {
    assert l.suf + r.pre + [] == l.suf + r.pre && l.pre + [] == l.pre;
    LenAppend(l.suf, r.pre);
    LenAppend(l.pre, r.pre);
  }

  lemma LeftOpen(l: Chain, r: Chain, s: seq<Val>, t: seq<Val>)
    requires Tidy(l) && Tidy(r) && l.mid.Some? && r.mid.None? && |t| == Len(r.pre)
    ensures FitChain(Linked(l, r).value, s + t) == Both(FitChain(l, s), FitChain(r, t))
  {
    hide FitPieces, Fit, Both, Len, FitChain;
    LinkedLens(l, r);
    LenAppend(l.suf, r.pre);
    FitClosed(r.pre, t);
    var a, z := Len(l.pre), Len(l.suf);
    if |s| >= a + z {
      var u, v, w := s[..a], s[a..|s| - z], s[|s| - z..];
      FitOpen(l.pre, l.mid.value, l.suf, u, v, w);
      FitOpen(l.pre, l.mid.value, l.suf + r.pre, u, v, w + t);
      FitAppend(l.suf, r.pre, w, t);
      BothAssoc(Both(FitPieces(l.pre, u), Fit(l.mid.value, Seq(v))), FitPieces(l.suf, w), FitPieces(r.pre, t));
      assert s == u + v + w && s + t == u + v + (w + t) && l.suf + r.pre + [] == l.suf + r.pre;
    } else {
      TooShort(l, s);
      TooShort(Linked(l, r).value, s + t);
      NoBoth(FitChain(l, s), FitChain(r, t));
    }
  }

  lemma NoBoth(a: Option<Bindings>, b: Option<Bindings>)
    ensures a.None? || b.None? ==> Both(a, b).None?
  {
  }

  lemma TooShort(c: Chain, s: seq<Val>)
    requires |s| < Len(c.pre) + Len(c.suf)
    ensures FitChain(c, s).None?
  {
  }

  lemma RightOpen(l: Chain, r: Chain, s: seq<Val>, t: seq<Val>)
    requires Tidy(l) && Tidy(r) && l.mid.None? && r.mid.Some? && |s| == Len(l.pre)
    ensures FitChain(Linked(l, r).value, s + t) == Both(FitChain(l, s), FitChain(r, t))
  {
    assert l == Chain(l.pre, None, []) && Linked(l, r).value == Chain(l.pre + r.pre, r.mid, r.suf) by {
      assert l.pre + [] + r.pre == l.pre + r.pre;
    }
    hide *;
    FitClosed(l.pre, s);
    PrefixOpen(l.pre, r, s, t);
  }

  /** More fixed pieces in front of an open chain. */
  lemma PrefixOpen(front: seq<Pattern>, r: Chain, s: seq<Val>, t: seq<Val>)
    requires r.mid.Some? && |s| == Len(front)
    ensures FitChain(Chain(front + r.pre, r.mid, r.suf), s + t) == Both(FitPieces(front, s), FitChain(r, t))
  {
    hide *;
    LenAppend(front, r.pre);
    var a, z := Len(r.pre), Len(r.suf);
    if |t| >= a + z {
      var u, v, w := t[..a], t[a..|t| - z], t[|t| - z..];
      FitOpen(r.pre, r.mid.value, r.suf, u, v, w);
      FitOpen(front + r.pre, r.mid.value, r.suf, s + u, v, w);
      FitAppend(front, r.pre, s, u);
      BothAssoc(FitPieces(front, s), FitPieces(r.pre, u), Fit(r.mid.value, Seq(v)));
      BothAssoc(FitPieces(front, s), Both(FitPieces(r.pre, u), Fit(r.mid.value, Seq(v))), FitPieces(r.suf, w));
      assert t == u + v + w && s + t == (s + u) + v + w;
    } else {
      TooShort(r, t);
      TooShort(Chain(front + r.pre, r.mid, r.suf), s + t);
      NoBoth(FitPieces(front, s), FitChain(r, t));
    }
  }

  lemma NoneOpen(l: Chain, r: Chain, s: seq<Val>, t: seq<Val>)
    requires Tidy(l) && Tidy(r) && l.mid.None? && r.mid.None? && |s| == Len(l.pre)
    ensures FitChain(Linked(l, r).value, s + t) == Both(FitChain(l, s), FitChain(r, t))
  {
    hide FitPieces, Fit, Both, Len;
    LinkedLens(l, r);
    FitClosed(l.pre, s);
    FitClosed(r.pre, t);
    assert l.pre + [] + r.pre == l.pre + r.pre;
    FitClosed(l.pre + r.pre, s + t);
    if |t| == Len(r.pre) {
      FitAppend(l.pre, r.pre, s, t);
    }
    NoBoth(FitChain(l, s), FitChain(r, t));
  }

  // ---- what the parser builds ---------------------------------------------

  lemma ChainOfFits(p: Pattern, s: seq<Val>)
    requires Normal(p)
    ensures Tidy(ChainOf(p)) && FitChain(ChainOf(p), s) == Fit(p, Seq(s))
  {
    if IsPiece(p) {
      FitClosed([p], s);
      assert Len([p]) == PieceLen(p) by {
        assert [p][1..] == [];
      }
      if |s| == PieceLen(p) {
        OnePiece(p, s);
      }
    } else if !p.Concat? {
      FitOpen([], p, [], [], s, []);
      assert [] + s + [] == s;
      BothNothing(Fit(p, Seq(s)));
    }
  }

  /** Merging a chain keeps what it matches, sequences or not. */
  lemma FromChainFits(c: Chain, v: Val)
    requires Tidy(c)
    ensures Fit(FromChain(c), v) == if v.Seq? then FitChain(c, v.items) else None
  {
    hide Fit;
    MergedIsPieces(c.pre);
    if v.Seq? {
      MergedChainFits(c, v.items);
      FromMerged(c, v.items);
    } else {
      NotASequence(FromChain(c), v);
    }
  }

  lemma NotASequence(p: Pattern, v: Val)
    requires IsPiece(p) || p.Concat?
    requires !v.Seq?
    ensures Fit(p, v).None?
  {
  }

  lemma MergedChainFits(c: Chain, s: seq<Val>)
    ensures FitChain(Chain(Merged(c.pre), c.mid, Merged(c.suf)), s) == FitChain(c, s)
  {
    hide FitPieces, Len, Both, Merged;
    MergedLen(c.pre);
    MergedLen(c.suf);
    var a, z := Len(c.pre), Len(c.suf);
    if |s| >= a + z {
      MergedFits(c.pre, s[..a]);
      MergedFits(c.suf, s[|s| - z..]);
    }
  }

  /** A lone merged piece is what a chain of it would match. */
  lemma FromMerged(c: Chain, s: seq<Val>)
    requires Tidy(c)
    ensures Fit(FromChain(c), Seq(s)) == FitChain(Chain(Merged(c.pre), c.mid, Merged(c.suf)), s)
  {
    MergedIsPieces(c.pre);
    var pre := Merged(c.pre);
    if c.mid.None? && |pre| == 1 {
      assert pre == [pre[0]] && pre[1..] == [] && Merged(c.suf) == [];
      FitClosed(pre, s);
      if |s| == PieceLen(pre[0]) {
        OnePiece(pre[0], s);
      }
    }
  }

  lemma FromChainNormal(c: Chain)
    requires Tidy(c) && |c.pre| + |c.suf| > 0
    ensures Normal(FromChain(c))
  {
    MergedIsPieces(c.pre);
    MergedIsPieces(c.suf);
  }

  /** `left ++ right` is normal when both sides are; it matches a sequence exactly as
      some split of it does, and nothing else. */
  lemma JoinedFits(left: Pattern, right: Pattern, v: Val, b: Bindings)
    requires Normal(left) && Normal(right) && Joined(left, right).Some?
    ensures Normal(Joined(left, right).value)
    ensures Fit(Joined(left, right).value, v) == Some(b) <==>
            v.Seq? && exists k :: 0 <= k <= |v.items| && Both(Fit(left, Seq(v.items[..k])), Fit(right, Seq(v.items[k..]))) == Some(b)
  {
    hide Fit, Both;
    var l, r := ChainOf(left), ChainOf(right);
    ChainIsTidy(left);
    ChainIsTidy(right);
    var c := Linked(l, r).value;
    LinkedTidy(l, r);
    FromChainNormal(c);
    FromChainFits(c, v);
    if v.Seq? {
      var s := v.items;
      LinkedFits(l, r, s);
      forall k | 0 <= k <= |s|
        ensures Both(Fit(left, Seq(s[..k])), Fit(right, Seq(s[k..]))) == FitAt(l, r, s, k)
        ensures k != Cut(l, r, |s|) ==> FitAt(l, r, s, k).None?
      {
        ChainOfFits(left, s[..k]);
        ChainOfFits(right, s[k..]);
        if k != Cut(l, r, |s|) {
          OnlyCut(l, r, s, k);
        }
      }
    }
  }

  lemma ChainIsTidy(p: Pattern)
    requires Normal(p)
    ensures Tidy(ChainOf(p)) && (ChainOf(p).mid.None? ==> |ChainOf(p).pre| > 0)
    ensures p.Concat? ==> |ChainOf(p).pre| + |ChainOf(p).suf| > 0
  {
  }

  lemma LinkedTidy(l: Chain, r: Chain)
    requires Tidy(l) && Tidy(r) && Linked(l, r).Some? && (l.mid.None? ==> |l.pre| > 0) && (r.mid.None? ==> |r.pre| > 0)
    ensures var c := Linked(l, r).value; Tidy(c) && |c.pre| + |c.suf| > 0
  {
  }
}
