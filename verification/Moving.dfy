/** Moving a uniquely owned slice is copying it: the two machines run alike, step for
    step, as long as an activation's running code leaves alone what its suspended code
    still reads. */
module Moving {
  import opened Common
  import opened Reified

  const COPIES: Mode := Mode(false, true)
  const MOVES: Mode := Mode(true, true)

  // ---- premises -----------------------------------------------------------

  /** Two activations hold the same in the given slots. */
  ghost predicate Agree(a: Slots, b: Slots, on: set<nat>) {
    |a| == |b| && forall i :: 0 <= i < |a| && i in on ==> a[i] == b[i]
  }

  /** What a suspended frame may still read of its activation. */
  function Wants(p: Program, k: K): set<nat> {
    if k.Ret? then p.live(k.next) - {k.slot} else {}
  }

  /** A block reads only slots live at its at, and what is live later is live now or
      filled by it. */
  ghost predicate LiveIsSound(p: Program) {
    && (forall at, a, b :: Agree(a, b, p.live(at)) ==> p.block(at, a) == p.block(at, b))
    && (forall at, a :: var d := p.block(at, a); d.act.Under? ==>
          p.live(d.act.inner) <= p.live(at) + d.updates.Keys && Wants(p, Suspended(d.act.what, 0)) <= p.live(at) + d.updates.Keys)
  }

  /** The slots a step writes of the activation it runs or returns to. */
  function Touches(p: Program, st: State): Option<(nat, set<nat>)> {
    match st.focus
    case Run(frame, at) => if frame < |st.frames| then Some((frame, p.block(at, st.frames[frame]).updates.Keys)) else None
    case Return(_) =>
      if |st.kont| > 0 && st.kont[|st.kont| - 1].Ret? then Some((st.kont[|st.kont| - 1].frame, {st.kont[|st.kont| - 1].slot})) else None
    case _ => None
  }

  /** Nothing a step writes is wanted by other suspended code of the same activation:
      a handled body never rebinds or empties a slot the code after the handler reads,
      nor the other way round. */
  ghost predicate Polite(p: Program, st: State) {
    var t := Touches(p, st);
    t.Some? ==>
      && (forall i :: 0 <= i < |st.kont| && !(st.focus.Return? && i == |st.kont| - 1) ==> Spares(p, st.kont[i], t.value))
      && (forall r, i :: 0 <= r < |st.slices| && !st.slices[r].gone && 0 <= i < |st.slices[r].seg| ==> Spares(p, st.slices[r].seg[i], t.value))
  }

  ghost predicate Spares(p: Program, k: K, t: (nat, set<nat>)) {
    k.Ret? && k.frame == t.0 ==> Wants(p, k) !! t.1
  }

  /** No step resumes a slice that was moved out, which exact counts rule out. */
  predicate Resumable(p: Program, st: State) {
    st.focus.Run? && st.focus.frame < |st.frames| ==>
      var act := p.block(st.focus.at, st.frames[st.focus.frame]).act;
      act.Apply? && act.f.Res? && act.f.slice < |st.slices| ==> !(st.slices[act.f.slice].gone && st.slices[act.f.slice].used)
  }

  ghost predicate Behaves(p: Program, mode: Mode, st: State, asks: seq<Ask>)
    decreases |asks|
  {
    Polite(p, st) && Resumable(p, st) && (|asks| > 0 ==> Behaves(p, mode, Step(p, mode, st, asks[0]), asks[1..]))
  }

  // ---- the two machines side by side --------------------------------------

  /** The activations of the moving machine, of the copying machine, and for each of
      the latter the one of the former it stands for. */
  datatype Pairing = Pairing(moving: seq<Slots>, copying: seq<Slots>, back: seq<nat>)

  ghost predicate Paired(w: Pairing) {
    && |w.back| == |w.copying|
    && forall g :: 0 <= g < |w.back| ==> w.back[g] < |w.moving| && |w.moving[w.back[g]]| == |w.copying[g]|
  }

  /** `k` and its twin in the copying machine, whose activations agree on what it still
      reads. */
  ghost predicate Twin(p: Program, w: Pairing, k: K, twin: K)
    requires Paired(w)
  {
    if k.Ret? then
      && twin.Ret? && twin.frame < |w.back| && w.back[twin.frame] == k.frame && twin.slot == k.slot && twin.next == k.next
      && Agree(w.moving[k.frame], w.copying[twin.frame], Wants(p, k))
    else twin == k
  }

  ghost predicate Alike(p: Program, w: Pairing, ks: seq<K>, twins: seq<K>)
    requires Paired(w)
  {
    |ks| == |twins| && forall i :: 0 <= i < |ks| ==> Twin(p, w, ks[i], twins[i])
  }

  ghost predicate SliceAlike(p: Program, w: Pairing, s: Slice, twin: Slice)
    requires Paired(w)
  {
    && twin.used == s.used
    && (if s.gone then s.seg == [] && (!s.used ==> twin == s) else !twin.gone && Alike(p, w, s.seg, twin.seg))
  }

  ghost predicate SlicesAlike(p: Program, w: Pairing, ss: seq<Slice>, twins: seq<Slice>)
    requires Paired(w)
  {
    |ss| == |twins| && forall r :: 0 <= r < |ss| ==> SliceAlike(p, w, ss[r], twins[r])
  }

  ghost predicate FocusAlike(p: Program, w: Pairing, f: Focus, twin: Focus)
    requires Paired(w)
  {
    if f.Run? then
      && twin.Run? && twin.at == f.at && twin.frame < |w.back| && w.back[twin.frame] == f.frame
      && Agree(w.moving[f.frame], w.copying[twin.frame], p.live(f.at))
    else twin == f
  }

  function Pair(m: State, c: State, back: seq<nat>): Pairing {
    Pairing(m.frames, c.frames, back)
  }

  /** All but what runs next. */
  ghost predicate Matched(p: Program, m: State, c: State, back: seq<nat>) {
    var w := Pair(m, c, back);
    Paired(w) && c.trace == m.trace && Alike(p, w, m.kont, c.kont) && SlicesAlike(p, w, m.slices, c.slices)
  }

  /** The moving machine's state `m` and the copying machine's `c`. */
  ghost predicate Sim(p: Program, m: State, c: State, back: seq<nat>) {
    Matched(p, m, c, back) && FocusAlike(p, Pair(m, c, back), m.focus, c.focus)
  }

  /** Whose place an activation of the copying machine takes, after a step of the moving
      machine from `m`. */
  function NextBack(p: Program, m: State, ask: Ask, back: seq<nat>): seq<nat> {
    var n := |m.frames|;
    if Resumed(p, m).Some? then
      if ask.unique then back + back else back + Shifted(back, n)
    else if |Step(p, MOVES, m, ask).frames| > n then back + [n]
    else back
  }

  function Shifted(back: seq<nat>, n: nat): (r: seq<nat>)
    ensures |r| == |back|
  {
    seq(|back|, g requires 0 <= g < |back| => n + back[g])
  }

  // ---- writing slots ------------------------------------------------------

  lemma WrittenAgree(a: Slots, b: Slots, on: set<nat>, updates: map<nat, Option<V>>)
    requires Agree(a, b, on)
    ensures Agree(Written(a, updates), Written(b, updates), on + updates.Keys)
  {
  }

  /** The same slots written in an activation and its twin. */
  function Write(w: Pairing, g: nat, updates: map<nat, Option<V>>): Pairing
    requires Paired(w) && g < |w.back|
  {
    var f := w.back[g];
    w.(moving := w.moving[f := Written(w.moving[f], updates)], copying := w.copying[g := Written(w.copying[g], updates)])
  }

  lemma TwinWritten(p: Program, w: Pairing, g: nat, updates: map<nat, Option<V>>, k: K, twin: K)
    requires Paired(w) && g < |w.back| && Twin(p, w, k, twin) && Spares(p, k, (w.back[g], updates.Keys))
    ensures Paired(Write(w, g, updates)) && Twin(p, Write(w, g, updates), k, twin)
  {
  }

  lemma AlikeWritten(p: Program, w: Pairing, g: nat, updates: map<nat, Option<V>>, ks: seq<K>, twins: seq<K>)
    requires Paired(w) && g < |w.back| && Alike(p, w, ks, twins)
    requires forall i :: 0 <= i < |ks| ==> Spares(p, ks[i], (w.back[g], updates.Keys))
    ensures Paired(Write(w, g, updates)) && Alike(p, Write(w, g, updates), ks, twins)
  {
    hide Twin, Spares, Write;
    PairedWritten(w, g, updates);
    forall i | 0 <= i < |ks|
      ensures Twin(p, Write(w, g, updates), ks[i], twins[i])
    {
      TwinWritten(p, w, g, updates, ks[i], twins[i]);
    }
  }

  lemma PairedWritten(w: Pairing, g: nat, updates: map<nat, Option<V>>)
    requires Paired(w) && g < |w.back|
    ensures Paired(Write(w, g, updates))
  {
  }

  lemma SlicesWritten(p: Program, w: Pairing, g: nat, updates: map<nat, Option<V>>, ss: seq<Slice>, twins: seq<Slice>)
    requires Paired(w) && g < |w.back| && SlicesAlike(p, w, ss, twins)
    requires forall r, i :: 0 <= r < |ss| && !ss[r].gone && 0 <= i < |ss[r].seg| ==> Spares(p, ss[r].seg[i], (w.back[g], updates.Keys))
    ensures Paired(Write(w, g, updates)) && SlicesAlike(p, Write(w, g, updates), ss, twins)
  {
    hide Alike, Spares, Write;
    PairedWritten(w, g, updates);
    forall r | 0 <= r < |ss|
      ensures SliceAlike(p, Write(w, g, updates), ss[r], twins[r])
    {
      if !ss[r].gone {
        AlikeWritten(p, w, g, updates, ss[r].seg, twins[r].seg);
      }
    }
  }

  // ---- new activations ----------------------------------------------------

  /** More activations on both sides, the old ones as they were. */
  ghost predicate Grows(w: Pairing, w': Pairing) {
    Paired(w) && Paired(w') && w.moving <= w'.moving && w.copying <= w'.copying && w.back <= w'.back
  }

  lemma AlikeGrows(p: Program, w: Pairing, w': Pairing, ks: seq<K>, twins: seq<K>)
    requires Grows(w, w') && Alike(p, w, ks, twins)
    ensures Alike(p, w', ks, twins)
  {
    forall i | 0 <= i < |ks|
      ensures Twin(p, w', ks[i], twins[i])
    {
      assert Twin(p, w, ks[i], twins[i]);
    }
  }

  lemma SlicesGrow(p: Program, w: Pairing, w': Pairing, ss: seq<Slice>, twins: seq<Slice>)
    requires Grows(w, w') && SlicesAlike(p, w, ss, twins)
    ensures SlicesAlike(p, w', ss, twins)
  {
    assert Paired(w) && Paired(w');
    hide Alike, Grows;
    forall r | 0 <= r < |ss|
      ensures SliceAlike(p, w', ss[r], twins[r])
    {
      if !ss[r].gone {
        AlikeGrows(p, w, w', ss[r].seg, twins[r].seg);
      }
    }
  }

  // ---- one step -----------------------------------------------------------

  lemma EnterSim(p: Program, m: State, c: State, back: seq<nat>, f: V, args: seq<V>) returns (back': seq<nat>)
    requires Matched(p, m, c, back)
    ensures Sim(p, Enter(p, m, f, args), Enter(p, c, f, args), back')
    ensures back' == if |Enter(p, m, f, args).frames| > |m.frames| then back + [|m.frames|] else back
  {
    if p.entry(f, args).None? {
      back' := back;
    } else {
      back' := back + [|m.frames|];
      var w, w' := Pair(m, c, back), Pair(Enter(p, m, f, args), Enter(p, c, f, args), back');
      assert Grows(w, w');
      AlikeGrows(p, w, w', m.kont, c.kont);
      SlicesGrow(p, w, w', m.slices, c.slices);
    }
  }

  lemma {:induction false} PromptAlike(p: Program, w: Pairing, ks: seq<K>, twins: seq<K>, op: nat)
    requires Paired(w) && Alike(p, w, ks, twins)
    ensures PromptFor(twins, op) == PromptFor(ks, op)
    decreases |ks|
  {
    if |ks| > 0 {
      var n := |ks| - 1;
      assert Twin(p, w, ks[n], twins[n]);
      PromptAlike(p, w, ks[..n], twins[..n], op);
    }
  }

  lemma {:induction false} DefersAlike(p: Program, w: Pairing, ks: seq<K>, twins: seq<K>)
    requires Paired(w) && Alike(p, w, ks, twins)
    ensures Defers(twins) == Defers(ks)
    decreases |ks|
  {
    if |ks| > 0 {
      var n := |ks| - 1;
      assert Twin(p, w, ks[n], twins[n]);
      DefersAlike(p, w, ks[..n], twins[..n]);
    }
  }

  lemma AlikeParts(p: Program, w: Pairing, ks: seq<K>, twins: seq<K>, n: nat)
    requires Paired(w) && Alike(p, w, ks, twins) && n <= |ks|
    ensures Alike(p, w, ks[..n], twins[..n]) && Alike(p, w, ks[n..], twins[n..])
  {
  }

  lemma AlikeJoined(p: Program, w: Pairing, a: seq<K>, a': seq<K>, b: seq<K>, b': seq<K>)
    requires Paired(w) && Alike(p, w, a, a') && Alike(p, w, b, b')
    ensures Alike(p, w, a + b, a' + b')
  {
  }

  lemma AlikeSelf(p: Program, w: Pairing, ks: seq<K>)
    requires Paired(w) && forall i :: 0 <= i < |ks| ==> !ks[i].Ret?
    ensures Alike(p, w, ks, ks)
  {
  }

  lemma PerformSim(p: Program, m: State, c: State, back: seq<nat>, op: nat, arg: V) returns (back': seq<nat>)
    requires Matched(p, m, c, back)
    ensures Sim(p, Perform(p, MOVES, m, op, arg), Perform(p, COPIES, c, op, arg), back')
    ensures back' == if |Perform(p, MOVES, m, op, arg).frames| > |m.frames| then back + [|m.frames|] else back
  {
    hide Twin;
    var w := Pair(m, c, back);
    PromptAlike(p, w, m.kont, c.kont, op);
    match PromptFor(m.kont, op)
    case None => back' := back;
    case Some((n, clause)) =>
      AlikeParts(p, w, m.kont, c.kont, n);
      DefersAlike(p, w, m.kont[n..], c.kont[n..]);
      var r, ds := |m.slices|, Defers(m.kont[n..]);
      var skips := clause.uses == Never;
      var top := if !skips then [AfterClause(r)] else if ds == [] then [] else [Cleanups(ds)];
      var sm := if skips then Slice([], false, true) else Slice(m.kont[n..], false, false);
      var sc := if skips then Slice([], false, true) else Slice(c.kont[n..], false, false);
      AlikeSelf(p, w, top);
      AlikeJoined(p, w, m.kont[..n], c.kont[..n], top, top);
      assert SliceAlike(p, w, sm, sc);
      var m', c' := m.(kont := m.kont[..n] + top, slices := m.slices + [sm]), c.(kont := c.kont[..n] + top, slices := c.slices + [sc]);
      assert Matched(p, m', c', back);
      back' := EnterSim(p, m', c', back, clause.fun, if skips then [arg] else [arg, Res(r)]);
  }

  /** A copied slice's frames stand for the moved slice's. */
  lemma AlikeCopied(p: Program, w: Pairing, w': Pairing, ks: seq<K>, twins: seq<K>, n: nat)
    requires Paired(w) && Paired(w') && Alike(p, w, ks, twins)
    requires n == |w.copying| && |w'.copying| == 2 * n && w'.moving == w.moving
    requires forall g :: 0 <= g < n ==> w'.back[n + g] == w.back[g] && w'.copying[n + g] == w.copying[g]
    ensures Alike(p, w', ks, MovedAll(twins, n))
  {
    forall i | 0 <= i < |ks|
      ensures Twin(p, w', ks[i], Moved(twins[i], n))
    {
      assert Twin(p, w, ks[i], twins[i]);
      if twins[i].Ret? {
        var g := twins[i].frame;
        assert w'.back[n + g] == w.back[g];
      }
    }
  }

  /** Both copy: the copies stand for each other. */
  lemma AlikeBothCopied(p: Program, w: Pairing, w': Pairing, ks: seq<K>, twins: seq<K>, k: nat, n: nat)
    requires Paired(w) && Paired(w') && Alike(p, w, ks, twins)
    requires n == |w.copying| && |w'.copying| == 2 * n && k == |w.moving| && w'.moving == w.moving + w.moving
    requires forall g :: 0 <= g < n ==> w'.back[n + g] == k + w.back[g] && w'.copying[n + g] == w.copying[g]
    ensures Alike(p, w', MovedAll(ks, k), MovedAll(twins, n))
  {
    forall i | 0 <= i < |ks|
      ensures Twin(p, w', Moved(ks[i], k), Moved(twins[i], n))
    {
      assert Twin(p, w, ks[i], twins[i]);
      if twins[i].Ret? {
        var g := twins[i].frame;
        assert w'.back[n + g] == k + w.back[g];
      }
    }
  }

  lemma ResumeSim(p: Program, m: State, c: State, back: seq<nat>, r: nat, arg: V, unique: bool) returns (back': seq<nat>)
    requires Matched(p, m, c, back)
    requires r < |m.slices| ==> !(m.slices[r].gone && m.slices[r].used)
    ensures Sim(p, Resume(MOVES, m, r, arg, unique), Resume(COPIES, c, r, arg, unique), back')
    ensures back' == if r >= |m.slices| || m.slices[r].gone then back
                     else if unique then back + back else back + Shifted(back, |m.frames|)
  {
    hide Twin;
    var w := Pair(m, c, back);
    assert r < |m.slices| ==> SliceAlike(p, w, m.slices[r], c.slices[r]);
    if r >= |m.slices| || m.slices[r].gone {
      back' := back;
    } else if unique {
      back' := back + back;
      MoveAndCopy(p, m, c, back, r, arg);
    } else {
      back' := back + Shifted(back, |m.frames|);
      CopyBoth(p, m, c, back, back', r, arg);
    }
  }

  lemma MoveAndCopy(p: Program, m: State, c: State, back: seq<nat>, r: nat, arg: V)
    requires Matched(p, m, c, back) && r < |m.slices| && !m.slices[r].gone && SliceAlike(p, Pair(m, c, back), m.slices[r], c.slices[r])
    ensures Sim(p, Resume(MOVES, m, r, arg, true), Resume(COPIES, c, r, arg, true), back + back)
  {
    hide Twin;
    var w, m', c' := Pair(m, c, back), Resume(MOVES, m, r, arg, true), Resume(COPIES, c, r, arg, true);
    var w' := Pair(m', c', back + back);
    assert Grows(w, w');
    AlikeGrows(p, w, w', m.kont, c.kont);
    AlikeCopied(p, w, w', m.slices[r].seg, c.slices[r].seg, |c.frames|);
    AlikeJoined(p, w', m.kont, c.kont, m.slices[r].seg, MovedAll(c.slices[r].seg, |c.frames|));
    SlicesGrow(p, w, w', m.slices, c.slices);
    hide Alike;
    forall q | 0 <= q < |m.slices|
      ensures SliceAlike(p, w', m'.slices[q], c'.slices[q])
    {
      assert SliceAlike(p, w', m.slices[q], c.slices[q]);
    }
  }

  lemma CopyBoth(p: Program, m: State, c: State, back: seq<nat>, back': seq<nat>, r: nat, arg: V)
    requires Matched(p, m, c, back) && r < |m.slices| && !m.slices[r].gone && SliceAlike(p, Pair(m, c, back), m.slices[r], c.slices[r])
    requires back' == back + Shifted(back, |m.frames|)
    ensures Sim(p, Resume(MOVES, m, r, arg, false), Resume(COPIES, c, r, arg, false), back')
  {
    hide Twin;
    var w, m', c' := Pair(m, c, back), Resume(MOVES, m, r, arg, false), Resume(COPIES, c, r, arg, false);
    var w' := Pair(m', c', back');
    assert Grows(w, w');
    AlikeGrows(p, w, w', m.kont, c.kont);
    AlikeBothCopied(p, w, w', m.slices[r].seg, c.slices[r].seg, |m.frames|, |c.frames|);
    AlikeJoined(p, w', m.kont, c.kont, MovedAll(m.slices[r].seg, |m.frames|), MovedAll(c.slices[r].seg, |c.frames|));
    SlicesGrow(p, w, w', m.slices, c.slices);
    hide Alike;
    forall q | 0 <= q < |m.slices|
      ensures SliceAlike(p, w', m'.slices[q], c'.slices[q])
    {
      assert SliceAlike(p, w', m.slices[q], c.slices[q]);
    }
  }

  lemma AppliedSim(p: Program, m: State, c: State, back: seq<nat>, f: V, a: V, ask: Ask) returns (back': seq<nat>)
    requires Matched(p, m, c, back)
    requires f.Res? && f.slice < |m.slices| ==> !(m.slices[f.slice].gone && m.slices[f.slice].used)
    ensures Sim(p, Applied(p, MOVES, m, f, a, ask), Applied(p, COPIES, c, f, a, ask), back')
    ensures back' == if f.Res? && f.slice < |m.slices| && !m.slices[f.slice].gone then
                       if ask.unique then back + back else back + Shifted(back, |m.frames|)
                     else if |Applied(p, MOVES, m, f, a, ask).frames| > |m.frames| then back + [|m.frames|] else back
  {
    hide Matched, Alike, SlicesAlike;
    match f
    case Oper(op) => back' := PerformSim(p, m, c, back, op, a);
    case Res(r) => back' := ResumeSim(p, m, c, back, r, a, ask.unique);
    case _ =>
      if p.entry(f, [a]).Some? {
        back' := EnterSim(p, m, c, back, f, [a]);
      } else {
        PrimSim(p, m, c, back, f, a);
        back' := back;
      }
  }

  lemma PrimSim(p: Program, m: State, c: State, back: seq<nat>, f: V, a: V)
    requires Matched(p, m, c, back) && !f.Oper? && !f.Res? && p.entry(f, [a]).None?
    ensures Sim(p, Applied(p, MOVES, m, f, a, Ask(false, false)), Applied(p, COPIES, c, f, a, Ask(false, false)), back)
  {
  }

  /** The two run the same block, and its writes leave them alike. */
  lemma WroteSim(p: Program, m: State, c: State, back: seq<nat>)
    requires LiveIsSound(p) && Sim(p, m, c, back) && m.focus.Run? && Polite(p, m)
    ensures c.focus.Run? && c.focus.frame < |c.frames| && m.focus.frame < |m.frames| && back[c.focus.frame] == m.focus.frame
    ensures p.block(c.focus.at, c.frames[c.focus.frame]) == p.block(m.focus.at, m.frames[m.focus.frame])
    ensures Matched(p, Wrote(p, m), Wrote(p, c), back)
    ensures var d, wm, wc := p.block(m.focus.at, m.frames[m.focus.frame]), Wrote(p, m).frames, Wrote(p, c).frames;
            Agree(wm[m.focus.frame], wc[c.focus.frame], p.live(m.focus.at) + d.updates.Keys)
  {
    var w, f, g, at := Pair(m, c, back), m.focus.frame, c.focus.frame, m.focus.at;
    var d := p.block(at, m.frames[f]);
    assert p.block(at, c.frames[g]) == d;
    AlikeWritten(p, w, g, d.updates, m.kont, c.kont);
    SlicesWritten(p, w, g, d.updates, m.slices, c.slices);
    WrittenAgree(m.frames[f], c.frames[g], p.live(at), d.updates);
    assert Pair(Wrote(p, m), Wrote(p, c), back) == Write(w, g, d.updates);
  }

  lemma BlockSim(p: Program, m: State, c: State, back: seq<nat>, ask: Ask) returns (back': seq<nat>)
    requires LiveIsSound(p) && Sim(p, m, c, back) && m.focus.Run? && Polite(p, m) && Resumable(p, m)
    ensures Sim(p, Step(p, MOVES, m, ask), Step(p, COPIES, c, ask), back') && back' == NextBack(p, m, ask, back)
  {
    WroteSim(p, m, c, back);
    hide Polite;
    var f, g, wm, wc := m.focus.frame, c.focus.frame, Wrote(p, m), Wrote(p, c);
    match p.block(m.focus.at, m.frames[f]).act
    case Apply(fun, a) => back' := AppliedSim(p, wm, wc, back, fun, a, ask);
    case Under(what, inner) =>
      back' := back;
      AlikeJoined(p, Pair(wm, wc, back), m.kont, c.kont, [Suspended(what, f)], [Suspended(what, g)]);
    case _ => back' := back;
  }

  lemma ReturnSim(p: Program, m: State, c: State, back: seq<nat>, ask: Ask) returns (back': seq<nat>)
    requires Sim(p, m, c, back) && m.focus.Return? && Polite(p, m)
    ensures Sim(p, Step(p, MOVES, m, ask), Step(p, COPIES, c, ask), back') && back' == NextBack(p, m, ask, back)
  {
    back' := back;
    if |m.kont| > 0 {
      var w, n, v := Pair(m, c, back), |m.kont| - 1, m.focus.v;
      var k := m.kont[n];
      assert Twin(p, w, k, c.kont[n]);
      AlikeParts(p, w, m.kont, c.kont, n);
      var pm, pc := m.(kont := m.kont[..n]), c.(kont := c.kont[..n]);
      assert Matched(p, pm, pc, back);
      match k
      case Ret(f, slot, next) => RetSim(p, m, c, back, ask);
      case Prompt(_, els) => back' := EnterSim(p, pm, pc, back, els, [v]);
      case Defer(cleanup) =>
        AlikeSelf(p, w, [ThunkRet(v)]);
        AlikeJoined(p, w, pm.kont, pc.kont, [ThunkRet(v)], [ThunkRet(v)]);
        back' := EnterSim(p, pm.(kont := pm.kont + [ThunkRet(v)]), pc.(kont := pc.kont + [ThunkRet(v)]), back, cleanup, []);
      case ThunkRet(_) =>
      case AfterClause(_) => BoundarySim(p, m, c, back, ask);
      case Cleanups(cleanups) => UnwindSim(p, pm, pc, back, cleanups, v);
    }
  }

  lemma BoundarySim(p: Program, m: State, c: State, back: seq<nat>, ask: Ask)
    requires Sim(p, m, c, back) && m.focus.Return? && |m.kont| > 0 && m.kont[|m.kont| - 1].AfterClause?
    ensures Sim(p, Step(p, MOVES, m, ask), Step(p, COPIES, c, ask), back)
  {
    var w, n := Pair(m, c, back), |m.kont| - 1;
    var r := m.kont[n].slice;
    assert Twin(p, w, m.kont[n], c.kont[n]);
    AlikeParts(p, w, m.kont, c.kont, n);
    var pm, pc := m.(kont := m.kont[..n]), c.(kont := c.kont[..n]);
    assert Matched(p, pm, pc, back);
    if r < |m.slices| {
      assert SliceAlike(p, w, m.slices[r], c.slices[r]);
      if !m.slices[r].used && !ask.owned {
        BoundaryDefers(p, m, c, back, r);
        UnwindSim(p, pm, pc, back, Defers(m.slices[r].seg), m.focus.v);
      }
    }
  }

  /** A boundary whose slice was never resumed finds the same cleanups in it. */
  lemma BoundaryDefers(p: Program, m: State, c: State, back: seq<nat>, r: nat)
    requires Matched(p, m, c, back) && r < |m.slices| && !m.slices[r].used
    ensures Defers(c.slices[r].seg) == Defers(m.slices[r].seg)
  {
    assert SliceAlike(p, Pair(m, c, back), m.slices[r], c.slices[r]);
    if !m.slices[r].gone {
      DefersAlike(p, Pair(m, c, back), m.slices[r].seg, c.slices[r].seg);
    }
  }

  lemma UnwindSim(p: Program, m: State, c: State, back: seq<nat>, cleanups: seq<V>, v: V)
    requires Matched(p, m, c, back)
    ensures Sim(p, Unwind(m, cleanups, v), Unwind(c, cleanups, v), back)
  {
    var w, top := Pair(m, c, back), [ThunkRet(v)] + Deferred(cleanups);
    AlikeSelf(p, w, top);
    AlikeJoined(p, w, m.kont, c.kont, top, top);
    assert m.kont + [ThunkRet(v)] + Deferred(cleanups) == m.kont + top && c.kont + [ThunkRet(v)] + Deferred(cleanups) == c.kont + top;
  }

  lemma RetSim(p: Program, m: State, c: State, back: seq<nat>, ask: Ask)
    requires Sim(p, m, c, back) && m.focus.Return? && Polite(p, m) && |m.kont| > 0 && m.kont[|m.kont| - 1].Ret?
    ensures Sim(p, Step(p, MOVES, m, ask), Step(p, COPIES, c, ask), back)
  {
    var w, n := Pair(m, c, back), |m.kont| - 1;
    var k, twin := m.kont[n], c.kont[n];
    assert Twin(p, w, k, twin);
    var f, g, updates := k.frame, twin.frame, map[k.slot := Some(m.focus.v)];
    AlikeParts(p, w, m.kont, c.kont, n);
    AlikeWritten(p, w, g, updates, m.kont[..n], c.kont[..n]);
    SlicesWritten(p, w, g, updates, m.slices, c.slices);
    WrittenAgree(m.frames[f], c.frames[g], Wants(p, k), updates);
  }

  lemma StepSim(p: Program, m: State, c: State, back: seq<nat>, ask: Ask) returns (back': seq<nat>)
    requires LiveIsSound(p) && Sim(p, m, c, back) && Polite(p, m) && Resumable(p, m)
    ensures Sim(p, Step(p, MOVES, m, ask), Step(p, COPIES, c, ask), back') && back' == NextBack(p, m, ask, back)
  {
    hide Matched, Polite, Resumable, LiveIsSound;
    match m.focus
    case Run(_, _) => back' := BlockSim(p, m, c, back, ask);
    case Return(_) => back' := ReturnSim(p, m, c, back, ask);
    case _ => back' := back;
  }

  // ---- whole runs ---------------------------------------------------------

  /** What can be seen of a run: what it applied, in order, and how it ended. */
  ghost predicate SeenAlike(a: State, b: State) {
    && a.trace == b.trace
    && (a.focus.Stopped? <==> b.focus.Stopped?) && (a.focus.Stopped? ==> b.focus == a.focus)
    && (a.focus.Faulted? <==> b.focus.Faulted?)
  }

  /** Step for step, if the boundaries are found owned alike. */
  lemma {:induction false} RunSim(p: Program, m: State, c: State, back: seq<nat>, asks: seq<Ask>) returns (back': seq<nat>)
    requires LiveIsSound(p) && Sim(p, m, c, back) && Behaves(p, MOVES, m, asks)
    ensures Sim(p, RunFor(p, MOVES, m, asks), RunFor(p, COPIES, c, asks), back')
    decreases |asks|
  {
    hide Sim, Polite, Resumable, LiveIsSound;
    if |asks| == 0 {
      back' := back;
    } else {
      back' := StepSim(p, m, c, back, asks[0]);
      back' := RunSim(p, Step(p, MOVES, m, asks[0]), Step(p, COPIES, c, asks[0]), back', asks[1..]);
    }
  }

  /** Every continuation frame names an activation there is, and what is gone is empty. */
  ghost predicate InBounds(st: State) {
    && (forall i :: 0 <= i < |st.kont| ==> Bounded(st.kont[i], |st.frames|))
    && (forall r, i :: 0 <= r < |st.slices| && 0 <= i < |st.slices[r].seg| ==> Bounded(st.slices[r].seg[i], |st.frames|))
    && (forall r :: 0 <= r < |st.slices| && st.slices[r].gone ==> st.slices[r].seg == [])
    && (st.focus.Run? ==> st.focus.frame < |st.frames|)
  }

  predicate Bounded(k: K, n: nat) {
    k.Ret? ==> k.frame < n
  }

  /** From one state, a machine that moves what is uniquely owned and one that always
      copies run alike. */
  lemma MovingIsCopying(p: Program, st: State, asks: seq<Ask>)
    requires LiveIsSound(p) && InBounds(st) && Behaves(p, MOVES, st, asks)
    ensures SeenAlike(RunFor(p, MOVES, st, asks), RunFor(p, COPIES, st, asks))
  {
    hide LiveIsSound, Behaves, RunFor;
    var back := seq(|st.frames|, g => g);
    SelfSim(p, st, back);
    back := RunSim(p, st, st, back, asks);
  }

  lemma SelfSim(p: Program, st: State, back: seq<nat>)
    requires InBounds(st) && |back| == |st.frames| && forall g :: 0 <= g < |back| ==> back[g] == g
    ensures Sim(p, st, st, back)
  {
    var w := Pair(st, st, back);
    forall i | 0 <= i < |st.kont|
      ensures Twin(p, w, st.kont[i], st.kont[i])
    {
      assert Bounded(st.kont[i], |st.frames|);
    }
    forall r | 0 <= r < |st.slices|
      ensures SliceAlike(p, w, st.slices[r], st.slices[r])
    {
      forall i | 0 <= i < |st.slices[r].seg|
        ensures Twin(p, w, st.slices[r].seg[i], st.slices[r].seg[i])
      {
        assert Bounded(st.slices[r].seg[i], |st.frames|);
      }
    }
  }

  // ---- when the boundaries differ -----------------------------------------

  type Decider = State -> Ask

  /** A run whose counts answer as `d` says. */
  function RunBy(p: Program, mode: Mode, d: Decider, st: State, n: nat): State
    decreases n
  {
    if n == 0 then st else RunBy(p, mode, d, Step(p, mode, st, d(st)), n - 1)
  }

  predicate Ended(st: State) {
    st.focus.Stopped? || st.focus.Faulted?
  }

  lemma {:induction false} EndedStays(p: Program, mode: Mode, d: Decider, st: State, n: nat)
    requires Ended(st)
    ensures RunBy(p, mode, d, st, n) == st
    decreases n
  {
    if n > 0 {
      EndedStays(p, mode, d, st, n - 1);
    }
  }

  /** A clause's boundary is about to be passed, and its slice was never resumed. */
  predicate AtBoundary(st: State) {
    && st.focus.Return? && |st.kont| > 0 && st.kont[|st.kont| - 1].AfterClause?
    && st.kont[|st.kont| - 1].slice < |st.slices| && !st.slices[st.kont[|st.kont| - 1].slice].used
  }

  /** Between the two steps of passing a boundary with nothing at stake. */
  predicate Passing(st: State) {
    st.focus.Return? && |st.kont| > 0 && st.kont[|st.kont| - 1].ThunkRet?
  }

  /** The cleanups it would run if the slice is not owned. */
  function AtStake(st: State): seq<V>
    requires AtBoundary(st)
  {
    Defers(st.slices[st.kont[|st.kont| - 1].slice].seg)
  }

  /** Passing a boundary with nothing to clean up: abandoned, a step later, is owned. */
  lemma NothingAtStake(p: Program, mode: Mode, st: State, a: Ask, b: Ask, o: Ask)
    requires AtBoundary(st) && AtStake(st) == [] && !a.owned && o.owned
    ensures Step(p, mode, Step(p, mode, st, a), b) == Step(p, mode, st, o)
  {
    var n := |st.kont| - 1;
    var st1 := Step(p, mode, st, a);
    assert Deferred([]) == [];
    assert st1.kont == st.kont[..n] + [ThunkRet(st.focus.v)] && st1.kont[..n] == st.kont[..n];
  }

  lemma {:induction false} RunOn(p: Program, mode: Mode, d: Decider, st: State, a: nat, b: nat)
    ensures RunBy(p, mode, d, RunBy(p, mode, d, st, a), b) == RunBy(p, mode, d, st, a + b)
    decreases a
  {
    hide Step;
    if a > 0 {
      RunOn(p, mode, d, Step(p, mode, st, d(st)), a - 1, b);
    }
  }

  lemma OneStep(p: Program, mode: Mode, d: Decider, st: State)
    ensures RunBy(p, mode, d, st, 1) == Step(p, mode, st, d(st))
    ensures RunBy(p, mode, d, st, 2) == (var next := Step(p, mode, st, d(st)); Step(p, mode, next, d(next)))
  {
  }

  lemma BoundaryTwin(p: Program, m: State, c: State, back: seq<nat>)
    requires Sim(p, m, c, back) && AtBoundary(m)
    ensures AtBoundary(c) && AtStake(c) == AtStake(m)
  {
    var n := |m.kont| - 1;
    assert Twin(p, Pair(m, c, back), m.kont[n], c.kont[n]);
    var r := m.kont[n].slice;
    assert SliceAlike(p, Pair(m, c, back), m.slices[r], c.slices[r]);
    BoundaryDefers(p, m, c, back, r);
  }

  /** Off a boundary, what the copying machine is told does not matter. */
  lemma AnyAsk(p: Program, m: State, c: State, back: seq<nat>, a: Ask, b: Ask) returns (back': seq<nat>)
    requires LiveIsSound(p) && Sim(p, m, c, back) && Polite(p, m) && Resumable(p, m) && (AtBoundary(m) ==> a.owned == b.owned)
    ensures Sim(p, Step(p, MOVES, m, a), Step(p, COPIES, c, b), back') && back' == NextBack(p, m, a, back)
  {
    hide LiveIsSound, Polite, Resumable;
    back' := StepSim(p, m, c, back, a);
    assert Step(p, COPIES, c, b) == Step(p, COPIES, c, a);
  }
}
