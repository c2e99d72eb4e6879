/** What becomes of `defer` cleanups: each installed one is started at most once over
    any run in which no slice is copied, an abandoned slice's start innermost first,
    and the value that reached the end of the scope comes out at the end. */
module Cleanups {
  import opened Common
  import opened Objects
  import opened Kinds
  import opened Runtime
  import opened Continuations
  import opened Slots
  import opened Delivery
  import opened Copying
  import opened Applying

  // ---- what is still waiting ----------------------------------------------

  /** What is tallied over frames: the cleanups still to be started, or the boundaries
      by the slice they name. */
  datatype Gauge = OfCleanups | OfBounds

  function Share(g: Gauge, kf: KFrame): multiset<Ref> {
    match g
    case OfCleanups =>
      if kf.KDefer? then multiset{kf.cleanup} else if kf.KCleanups? then multiset(kf.cleanups) else multiset{}
    case OfBounds => KBounds(kf)
  }

  function Shares(g: Gauge, seg: seq<KFrame>): multiset<Ref> {
    if |seg| == 0 then multiset{} else Shares(g, seg[..|seg| - 1]) + Share(g, seg[|seg| - 1])
  }

  function SliceShare(g: Gauge, p: Payload): multiset<Ref> {
    if p.Slice? && p.seg.Some? then Shares(g, p.seg.value) else multiset{}
  }

  /** What the captured slices of the heap hold. */
  function HeapShare(g: Gauge, h: Store): multiset<Ref> {
    if |h| == 0 then multiset{} else HeapShare(g, h[..|h| - 1]) + SliceShare(g, h[|h| - 1].payload)
  }

  /** What the stack and the captured slices hold. */
  function Total(g: Gauge, h: Store, k: seq<KFrame>): multiset<Ref> {
    HeapShare(g, h) + Shares(g, k)
  }

  lemma {:induction false} SharesConcat(g: Gauge, a: seq<KFrame>, b: seq<KFrame>)
    ensures Shares(g, a + b) == Shares(g, a) + Shares(g, b)
  {
    hide Share;
    if |b| == 0 {
      assert a + b == a;
    } else {
      SharesConcat(g, a, b[..|b| - 1]);
      assert (a + b)[..|a + b| - 1] == a + b[..|b| - 1];
    }
  }

  lemma SharesOne(g: Gauge, kf: KFrame)
    ensures Shares(g, [kf]) == Share(g, kf)
  {
    assert [kf][..0] == [];
  }

  lemma SharesTop(g: Gauge, k: seq<KFrame>)
    requires |k| > 0
    ensures Shares(g, k) == Shares(g, k[..|k| - 1]) + Share(g, k[|k| - 1])
  {
  }

  lemma {:induction false} SharesQueue(g: Gauge, cs: seq<Ref>)
    ensures Shares(g, DeferFrames(cs)) == if g.OfCleanups? then multiset(cs) else multiset{}
  {
    if |cs| == 0 {
      NoDeferFrames();
    } else {
      var n := |cs| - 1;
      SharesQueue(g, cs[..n]);
      QueueOne(g, cs);
    }
  }

  lemma QueueOne(g: Gauge, cs: seq<Ref>)
    requires |cs| > 0
    ensures var n := |cs| - 1;
            Shares(g, DeferFrames(cs)) == Shares(g, DeferFrames(cs[..n])) + (if g.OfCleanups? then multiset{cs[n]} else multiset{})
    ensures multiset(cs) == multiset(cs[..|cs| - 1]) + multiset{cs[|cs| - 1]}
  {
    hide Shares, DeferFrames;
    var n := |cs| - 1;
    assert cs == cs[..n] + [cs[n]] && cs[..n + 1] == cs;
    DeferFramesMore(cs, n);
    SharesConcat(g, DeferFrames(cs[..n]), [KDefer(cs[n])]);
    SharesOne(g, KDefer(cs[n]));
  }

  lemma SharesQueued(g: Gauge, v: Ref, cs: seq<Ref>)
    ensures Shares(g, Queued(v, cs)) == if g.OfCleanups? then multiset(cs) else multiset{}
  {
    hide Shares;
    SharesConcat(g, [KThunkRet(v)], DeferFrames(cs));
    SharesOne(g, KThunkRet(v));
    SharesQueue(g, cs);
  }

  /** The cleanups gathered from a slice are among those waiting in it. */
  lemma {:induction false} DefersWait(seg: seq<KFrame>)
    ensures multiset(Defers(seg)) <= Shares(OfCleanups, seg)
  {
    if |seg| > 0 {
      DefersWait(seg[..|seg| - 1]);
    }
  }

  // ---- over the heap ------------------------------------------------------

  lemma {:induction false} HeapPrefix(g: Gauge, h: Store, n: nat)
    requires n <= |h|
    ensures HeapShare(g, h[..n]) <= HeapShare(g, h)
  {
    hide SliceShare;
    if n < |h| {
      HeapPrefix(g, h[..|h| - 1], n);
      assert h[..|h| - 1][..n] == h[..n];
    } else {
      assert h[..n] == h;
    }
  }

  lemma {:induction false} KeptShare(g: Gauge, h: Store, h': Store)
    requires SegsKept(h, h')
    ensures HeapShare(g, h') <= HeapShare(g, h)
  {
    hide SliceShare, SegsKept;
    if |h'| > 0 {
      var n := |h'| - 1;
      KeptLast(g, h, h');
      if n < |h| {
        KeptShare(g, h[..n], h'[..n]);
        HeapPrefix(g, h, n + 1);
        assert h[..n + 1][..n] == h[..n];
      } else {
        KeptShare(g, h, h'[..n]);
      }
    }
  }

  lemma KeptLast(g: Gauge, h: Store, h': Store)
    requires SegsKept(h, h') && |h'| > 0
    ensures var n := |h'| - 1;
            && (n < |h| ==> SegsKept(h[..n], h'[..n]) && SliceShare(g, h'[n].payload) <= SliceShare(g, h[n].payload))
            && (n >= |h| ==> SegsKept(h, h'[..n]) && SliceShare(g, h'[n].payload) == multiset{})
  {
  }

  lemma ShedKept(h: Store, h': Store)
    requires Shed(h, h')
    ensures SegsKept(h, h')
  {
  }

  /** The same heap without the frames of slice `s`. */
  function Without(h: Store, s: Ref): Store
    requires s < |h|
  {
    h[s := h[s].(payload := Freed)]
  }

  lemma {:induction false} EmptiedShare(g: Gauge, h: Store, s: Ref)
    requires s < |h|
    ensures forall x: Ref :: HeapShare(g, Without(h, s))[x] + SliceShare(g, h[s].payload)[x] == HeapShare(g, h)[x]
  {
    hide SliceShare;
    var n := |h| - 1;
    assert SliceShare(g, Freed) == multiset{} by { NoShare(g); }
    if s < n {
      EmptiedShare(g, h[..n], s);
      assert Without(h, s)[..n] == Without(h[..n], s);
    } else {
      assert Without(h, s)[..n] == h[..n];
    }
  }

  lemma NoShare(g: Gauge)
    ensures SliceShare(g, Freed) == multiset{}
  {
  }

  /** A freed slice gives up what it held. */
  lemma FreedShare(g: Gauge, h: Store, h': Store, s: Ref)
    requires Shed(h, h') && s < |h| && h'[s].payload.Freed?
    ensures HeapShare(g, h') + SliceShare(g, h[s].payload) <= HeapShare(g, h)
  {
    hide HeapShare, SliceShare;
    EmptiedShare(g, h, s);
    KeptShare(g, Without(h, s), h');
  }

  /** A slice whose frames move out gives them up. */
  lemma MovedShare(g: Gauge, h: Store, h': Store, s: Ref)
    requires SegMoved(h, h', s) && s < |h|
    ensures HeapShare(g, h') + SliceShare(g, h[s].payload) <= HeapShare(g, h)
  {
    hide HeapShare, SliceShare;
    EmptiedShare(g, h, s);
    KeptShare(g, Without(h, s), h');
  }

  // ---- settling -----------------------------------------------------------

  /** At most one boundary names any slice. */
  ghost predicate OneBoundary(h: Store, k: seq<KFrame>) {
    forall s: Ref :: Total(OfBounds, h, k)[s] <= 1
  }

  lemma {:induction false} BoundsAreShares(seg: seq<KFrame>)
    ensures SegBounds(seg) == Shares(OfBounds, seg)
  {
    if |seg| > 0 {
      var n := |seg| - 1;
      BoundsAreShares(seg[..n]);
      SegBoundsConcat(seg[..n], seg[n]);
      assert seg == seg[..n] + [seg[n]];
    }
  }

  lemma SegBoundsConcat(a: seq<KFrame>, kf: KFrame)
    ensures SegBounds(a + [kf]) == SegBounds(a) + KBounds(kf)
  {
    SegRefsConcat(a, [kf]);
    assert SegBounds([kf][1..]) == multiset{};
    assert SegBounds([kf]) == KBounds(kf);
  }

  lemma {:induction false} HeapBoundsAreShares(h: Store)
    ensures AllBounds(h) == HeapShare(OfBounds, h)
  {
    if |h| > 0 {
      HeapBoundsAreShares(h[..|h| - 1]);
      var p := h[|h| - 1].payload;
      if p.Slice? && p.seg.Some? {
        BoundsAreShares(p.seg.value);
      }
    }
  }

  /** An abandoned slice that no other boundary names is freed as its cleanups are
      queued. */
  lemma AbandonedFreed(a: Moment, b: Moment, unit: Ref)
    requires SettleStep(a, b, unit) && OneBoundary(a.heap, a.kont) && a.kont[|a.kont| - 1].KAfterClause?
    requires !InUse(a.heap[a.kont[|a.kont| - 1].res])
    ensures b.heap[a.kont[|a.kont| - 1].res].payload.Freed?
  {
    hide HeapShare, AllBounds, SegBounds, Defers, Queued;
    var s, below := a.kont[|a.kont| - 1].res, a.kont[..|a.kont| - 1];
    var cs := Defers(a.heap[s].payload.seg.value);
    SharesTop(OfBounds, a.kont);
    SharesConcat(OfBounds, below, Queued(a.value, cs));
    SharesQueued(OfBounds, a.value, cs);
    ShedKept(a.heap, b.heap);
    KeptShare(OfBounds, a.heap, b.heap);
    HeapBoundsAreShares(b.heap);
    BoundsAreShares(b.kont);
    assert Total(OfBounds, a.heap, a.kont)[s] <= 1;
  }

  /** Settling a frame loses nothing but what it drops, and doubles nothing. */
  lemma SettleSpends(g: Gauge, a: Moment, b: Moment, unit: Ref)
    requires SettleStep(a, b, unit) && OneBoundary(a.heap, a.kont)
    ensures Total(g, b.heap, b.kont) <= Total(g, a.heap, a.kont)
  {
    hide HeapShare, Shares, Defers, Queued, OneBoundary, InUse, Gone, Shed;
    var kf, below := a.kont[|a.kont| - 1], a.kont[..|a.kont| - 1];
    SharesTop(g, a.kont);
    ShedKept(a.heap, b.heap);
    KeptShare(g, a.heap, b.heap);
    if kf.KCleanups? {
      SharesConcat(g, below, Queued(a.value, kf.cleanups));
      SharesQueued(g, a.value, kf.cleanups);
    } else if kf.KAfterClause? && !InUse(a.heap[kf.res]) {
      var seg := a.heap[kf.res].payload.seg.value;
      SharesConcat(g, below, Queued(a.value, Defers(seg)));
      SharesQueued(g, a.value, Defers(seg));
      AbandonedFreed(a, b, unit);
      FreedShare(g, a.heap, b.heap, kf.res);
      DefersWait(seg);
    }
  }

  lemma OneBoundaryStays(h: Store, k: seq<KFrame>, h': Store, k': seq<KFrame>)
    requires OneBoundary(h, k) && Total(OfBounds, h', k') <= Total(OfBounds, h, k)
    ensures OneBoundary(h', k')
  {
    hide Total;
    forall s: Ref
      ensures Total(OfBounds, h', k')[s] <= 1
    {
      assert Total(OfBounds, h', k')[s] <= Total(OfBounds, h, k)[s];
    }
  }

  lemma {:induction false} PathSpends(g: Gauge, path: seq<Moment>, unit: Ref, n: nat)
    requires Settles(path, unit) && OneBoundary(path[0].heap, path[0].kont) && n < |path|
    ensures Total(g, path[n].heap, path[n].kont) <= Total(g, path[0].heap, path[0].kont)
    ensures OneBoundary(path[n].heap, path[n].kont)
  {
    hide Total, OneBoundary, SettleStep;
    if n > 0 {
      PathSpends(g, path, unit, n - 1);
      assert SettledAt(path, n, unit);
      SettleSpends(g, path[n - 1], path[n], unit);
      SettleSpends(OfBounds, path[n - 1], path[n], unit);
      OneBoundaryStays(path[n - 1].heap, path[n - 1].kont, path[n].heap, path[n].kont);
    }
  }

  // ---- deliveries and applications ----------------------------------------

  /** The cleanup a delivery starts, if the frame that takes the value is one. */
  function StartedBy(path: seq<Moment>, r: Next): multiset<Ref> {
    if |path| > 0 && !r.Finished? && |path[|path| - 1].kont| > 0 && path[|path| - 1].kont[|path[|path| - 1].kont| - 1].KDefer?
    then multiset{path[|path| - 1].kont[|path[|path| - 1].kont| - 1].cleanup} else multiset{}
  }

  /** What a delivery tallies: the cleanup it starts is no longer waiting. */
  lemma HandedSpends(g: Gauge, a: Moment, h': Store, k': seq<KFrame>, r: Next, layouts: seq<seq<bool>>)
    requires Handed(a, h', k', r, layouts)
    ensures var kf := a.kont[|a.kont| - 1];
            Total(g, h', k') + (if g.OfCleanups? && kf.KDefer? then multiset{kf.cleanup} else multiset{}) <= Total(g, a.heap, a.kont)
  {
    hide HeapShare, Shares, SegsKept, Received, HandedTo;
    var kf, below := a.kont[|a.kont| - 1], a.kont[..|a.kont| - 1];
    SharesTop(g, a.kont);
    KeptShare(g, a.heap, h');
    if kf.KDefer? {
      SharesConcat(g, below, [KThunkRet(a.value)]);
      SharesOne(g, KThunkRet(a.value));
    }
  }

  lemma AtMost(a: multiset<Ref>, b: multiset<Ref>, c: multiset<Ref>)
    requires a <= b && b <= c
    ensures a <= c
  {
  }

  lemma PathAtLeastOne(path: seq<Moment>, unit: Ref)
    requires Settles(path, unit)
    ensures |path| > 0
  {
  }

  lemma HandedTop(a: Moment, h': Store, k': seq<KFrame>, r: Next, layouts: seq<seq<bool>>)
    requires Handed(a, h', k', r, layouts)
    ensures |a.kont| > 0
  {
  }

  lemma ShedSpends(g: Gauge, h: Store, h': Store, k: seq<KFrame>)
    requires Shed(h, h')
    ensures Total(g, h', k) <= Total(g, h, k)
  {
    hide HeapShare, Shares;
    ShedKept(h, h');
    KeptShare(g, h, h');
  }

  lemma DeliveredSpends(g: Gauge, h: Store, k: seq<KFrame>, v: Ref, path: seq<Moment>, h': Store, k': seq<KFrame>, r: Next,
                        unit: Ref, base: nat, layouts: seq<seq<bool>>)
    requires Delivered(h, k, v, path, h', k', r, unit, base, layouts) && OneBoundary(h, k)
    ensures Total(g, h', k') + (if g.OfCleanups? then StartedBy(path, r) else multiset{}) <= Total(g, h, k)
  {
    hide OneBoundary, Total, Settles, Handed, Shed;
    PathAtLeastOne(path, unit);
    ShedSpends(g, h, path[0].heap, k);
    ShedSpends(OfBounds, h, path[0].heap, k);
    OneBoundaryStays(h, k, path[0].heap, k);
    PathSpends(g, path, unit, |path| - 1);
    var last := path[|path| - 1];
    AtMost(Total(g, last.heap, last.kont), Total(g, path[0].heap, k), Total(g, h, k));
    if !r.Finished? {
      HandedSpends(g, last, h', k', r, layouts);
      HandedTop(last, h', k', r, layouts);
      AtMost(Total(g, h', k') + (if g.OfCleanups? then StartedBy(path, r) else multiset{}), Total(g, last.heap, last.kont), Total(g, h, k));
    }
  }

  lemma CapturedSpends(g: Gauge, h: Store, k: seq<KFrame>, p: nat, h': Store, k': seq<KFrame>, kval: Ref)
    requires SliceTaken(h, k, p, h', k', kval)
    ensures Total(g, h', k') <= Total(g, h, k) + (if g.OfBounds? then multiset{|h|} else multiset{})
  {
    hide HeapShare, Shares;
    var s := |h|;
    assert k == k[..p] + k[p..];
    SharesConcat(g, k[..p], k[p..]);
    SharesConcat(g, k[..p], [KAfterClause(s)]);
    SharesOne(g, KAfterClause(s));
    EmptiedShare(g, h', s);
    KeptShare(g, h, Without(h', s));
  }

  lemma UncapturedSpends(g: Gauge, h: Store, k: seq<KFrame>, p: nat, h': Store)
    requires SegsKept(h, h') && p <= |k|
    ensures Total(g, h', Uncaptured(k, p)) <= Total(g, h, k)
  {
    hide HeapShare, Shares, Defers, SegsKept;
    var cs := Defers(k[p..]);
    assert k == k[..p] + k[p..];
    SharesConcat(g, k[..p], k[p..]);
    KeptShare(g, h, h');
    DefersWait(k[p..]);
    if |cs| > 0 {
      SharesConcat(g, k[..p], [KCleanups(cs)]);
      SharesOne(g, KCleanups(cs));
    } else {
      assert k[..p] + [] == k[..p];
    }
  }

  lemma SplicedSpends(g: Gauge, h: Store, k: seq<KFrame>, fn: Ref, owned: bool, w: Splicing)
    requires Spliced(h, fn, owned, w) && w.moved
    ensures Total(g, w.mid, k + w.out) <= Total(g, h, k)
  {
    hide HeapShare, Shares, SegMoved;
    MovedShare(g, h, w.mid, h[fn].payload.slice);
    SharesConcat(g, k, w.out);
  }

  // ---- runs ---------------------------------------------------------------

  /** The machine between two of its operations, with every cleanup installed and every
      one started so far. */
  datatype World = World(heap: Store, kont: seq<KFrame>, held: multiset<Ref>, installed: multiset<Ref>, started: multiset<Ref>)

  datatype Act =
      /** A frame of a `let` or of a handler is pushed. */
    | Pushes(frame: KFrame)
    | Installs(cleanup: Ref)
    | Delivers(value: Ref, unit: Ref, base: nat, layouts: seq<seq<bool>>, path: seq<Moment>, r: Next)
    | Applies(fn: Ref, arg: Ref, owned: bool, unit: Ref, answer: Ref, base: nat, layouts: seq<seq<bool>>, how: How, r: Next)
      /** Anything else: it neither captures frames nor touches the stack. */
    | Works

  /** The cleanup an application starts: only handing a value on can. */
  function StartedHow(how: How, r: Next): multiset<Ref> {
    if how.Resumes? || how.Returns? then StartedBy(how.path, r) else multiset{}
  }

  function Starts(act: Act): multiset<Ref> {
    match act
    case Delivers(_, _, _, _, path, r) => StartedBy(path, r)
    case Applies(_, _, _, _, _, _, _, how, r) => StartedHow(how, r)
    case _ => multiset{}
  }

  /** One operation, none of which copies a slice. */
  ghost predicate Tick(a: World, b: World, act: Act) {
    && Good(a.heap, a.kont, a.held, None) && Good(b.heap, b.kont, b.held, None)
    && b.installed == a.installed + (if act.Installs? then multiset{act.cleanup} else multiset{})
    && b.started == a.started + Starts(act)
    && match act
       case Pushes(kf) => (kf.KRet? || kf.KPrompt?) && b.kont == a.kont + [kf] && SegsKept(a.heap, b.heap)
       case Installs(c) => b.kont == a.kont + [KDefer(c)] && SegsKept(a.heap, b.heap)
       case Delivers(v, unit, base, layouts, path, r) =>
         exists last: Store :: Delivered(a.heap, a.kont, v, path, last, b.kont, r, unit, base, layouts) && Shed(last, b.heap)
       case Applies(fn, arg, owned, unit, answer, base, layouts, how, r) =>
         && (how.Resumes? ==> how.splicing.moved)
         && exists last: Store :: Applied(a.heap, a.kont, fn, arg, owned, unit, answer, base, layouts, how, last, b.kont, r) && Shed(last, b.heap)
       case Works => b.kont == a.kont && SegsKept(a.heap, b.heap)
  }

  ghost predicate Ready(w: World) {
    OneBoundary(w.heap, w.kont) && w.started + Total(OfCleanups, w.heap, w.kont) <= w.installed
  }

  /** A built-in captures nothing and moves no frames. */
  lemma HandsOnKeeps(h: Store, fn: Ref, arg: Ref, answer: Ref, how: How)
    requires HandsOn(h, fn, arg, answer, how)
    ensures SegsKept(h, how.mid)
  {
    if !Saturates(h[fn].payload) {
      assert how.mid[|h|].payload.Node?;
      forall i: Ref | i < |h|
        ensures how.mid[i].payload == h[i].payload
      {
        assert how.mid[..|h|][i] == how.mid[i];
      }
    }
  }

  lemma HandedOnSpends(g: Gauge, h: Store, k: seq<KFrame>, fn: Ref, arg: Ref, unit: Ref, answer: Ref, base: nat, layouts: seq<seq<bool>>,
                       how: How, h': Store, k': seq<KFrame>, r: Next)
    requires ReturnedBy(h, k, fn, arg, unit, answer, base, layouts, how, h', k', r) && OneBoundary(h, k)
    ensures how.Returns? && Total(g, h', k') + (if g.OfCleanups? then StartedBy(how.path, r) else multiset{}) <= Total(g, h, k)
  {
    assert how.Returns?;
    hide OneBoundary, Delivered, SegsKept, HandsOn, Total, StartedBy;
    HandsOnKeeps(h, fn, arg, answer, how);
    KeptSpends(g, h, how.mid, k);
    KeptSpends(OfBounds, h, how.mid, k);
    OneBoundaryStays(h, k, how.mid, k);
    DeliveredSpends(g, how.mid, k, how.value, how.path, h', k', r, unit, base, layouts);
    AtMost(Total(g, h', k') + (if g.OfCleanups? then StartedBy(how.path, r) else multiset{}), Total(g, how.mid, k), Total(g, h, k));
  }

  lemma AppliedSpends(g: Gauge, h: Store, k: seq<KFrame>, held: multiset<Ref>, fn: Ref, arg: Ref, owned: bool, unit: Ref, answer: Ref, base: nat, layouts: seq<seq<bool>>,
                      how: How, h': Store, k': seq<KFrame>, r: Next)
    requires Applied(h, k, fn, arg, owned, unit, answer, base, layouts, how, h', k', r) && OneBoundary(h, k)
    requires how.Resumes? ==> how.splicing.moved
    ensures Total(g, h', k') + (if g.OfCleanups? then StartedHow(how, r) else multiset{})
            <= Total(g, h, k) + (if g.OfBounds? && how.Performs? then multiset{|h|} else multiset{})
  {
    hide OneBoundary, HeapShare, Shares, Delivered, SegsKept, Activated, SliceTaken, Spliced, HandsOn, StartedBy;
    match h[fn].payload
    case Op(effect, op) =>
      if k[how.prompt].clauses[how.clause].resume == Never {
        UncapturedSpends(g, h, k, how.prompt, h');
      } else {
        CapturedSpends(g, h, k, how.prompt, h', k', how.kval);
      }
    case Resumption(_) =>
      SplicedSpends(g, h, k, fn, owned, how.splicing);
      SplicedSpends(OfBounds, h, k, fn, owned, how.splicing);
      OneBoundaryStays(h, k, how.splicing.mid, k + how.splicing.out);
      DeliveredSpends(g, how.splicing.mid, k + how.splicing.out, arg, how.path, h', k', r, unit, base, layouts);
    case Node(Builtin(_, _), _) =>
      HandedOnSpends(g, h, k, fn, arg, unit, answer, base, layouts, how, h', k', r);
    case Node(Extern(_, _), _) =>
      HandedOnSpends(g, h, k, fn, arg, unit, answer, base, layouts, how, h', k', r);
    case _ =>
      KeptShare(g, h, h');
  }

  /** An operation neither starts a cleanup that was not waiting nor makes one wait that
      was not installed; and no slice comes to be named by two boundaries. */
  lemma TickSpends(a: World, b: World, act: Act)
    requires Tick(a, b, act) && Ready(a)
    ensures Ready(b)
  {
    hide OneBoundary, Total, Good, Delivered, Applied, Shed, SegsKept;
    TickTotals(OfCleanups, a, b, act);
    TickTotals(OfBounds, a, b, act);
    Sums(a.started, Total(OfCleanups, a.heap, a.kont), a.installed, Starts(act), Total(OfCleanups, b.heap, b.kont), Adds(OfCleanups, a, act));
    if act.Applies? && act.how.Performs? {
      FreshBoundary(a);
      OneMoreBoundary(a.heap, a.kont, b.heap, b.kont);
    } else {
      assert Total(OfBounds, a.heap, a.kont) + multiset{} == Total(OfBounds, a.heap, a.kont);
      OneBoundaryStays(a.heap, a.kont, b.heap, b.kont);
    }
  }

  lemma Sums(started: multiset<Ref>, total: multiset<Ref>, installed: multiset<Ref>, starts: multiset<Ref>, total': multiset<Ref>, adds: multiset<Ref>)
    requires started + total <= installed && total' + starts <= total + adds
    ensures started + starts + total' <= installed + adds
  {
    forall x: Ref
      ensures (started + starts + total')[x] <= (installed + adds)[x]
    {
      assert (started + total)[x] <= installed[x];
      assert (total' + starts)[x] <= (total + adds)[x];
    }
  }

  /** What an operation adds to a tally. */
  function Adds(g: Gauge, a: World, act: Act): multiset<Ref> {
    match g
    case OfCleanups => if act.Installs? then multiset{act.cleanup} else multiset{}
    case OfBounds => if act.Applies? && act.how.Performs? then multiset{|a.heap|} else multiset{}
  }

  lemma TickTotals(g: Gauge, a: World, b: World, act: Act)
    requires Tick(a, b, act) && OneBoundary(a.heap, a.kont)
    ensures Total(g, b.heap, b.kont) + (if g.OfCleanups? then Starts(act) else multiset{}) <= Total(g, a.heap, a.kont) + Adds(g, a, act)
  {
    hide OneBoundary, Good, Delivered, Applied, Shed, SegsKept, Total;
    match act
    case Pushes(kf) => PushSpends(g, a, b, kf);
    case Installs(c) => PushSpends(g, a, b, KDefer(c));
    case Delivers(v, unit, base, layouts, path, r) =>
      var last: Store :| Delivered(a.heap, a.kont, v, path, last, b.kont, r, unit, base, layouts) && Shed(last, b.heap);
      DeliveredSpends(g, a.heap, a.kont, v, path, last, b.kont, r, unit, base, layouts);
      ShedSpends(g, last, b.heap, b.kont);
    case Applies(fn, arg, owned, unit, answer, base, layouts, how, r) =>
      var last: Store :| Applied(a.heap, a.kont, fn, arg, owned, unit, answer, base, layouts, how, last, b.kont, r) && Shed(last, b.heap);
      AppliedSpends(g, a.heap, a.kont, a.held, fn, arg, owned, unit, answer, base, layouts, how, last, b.kont, r);
      ShedSpends(g, last, b.heap, b.kont);
    case Works => KeptSpends(g, a.heap, b.heap, a.kont);
  }

  lemma KeptSpends(g: Gauge, h: Store, h': Store, k: seq<KFrame>)
    requires SegsKept(h, h')
    ensures Total(g, h', k) <= Total(g, h, k)
  {
    hide HeapShare, Shares;
    KeptShare(g, h, h');
  }

  lemma PushSpends(g: Gauge, a: World, b: World, kf: KFrame)
    requires b.kont == a.kont + [kf] && SegsKept(a.heap, b.heap)
    ensures Total(g, b.heap, b.kont) <= Total(g, a.heap, a.kont) + Share(g, kf)
  {
    hide HeapShare, Shares, Share;
    KeptShare(g, a.heap, b.heap);
    SharesConcat(g, a.kont, [kf]);
    SharesOne(g, kf);
  }

  /** No boundary names an object yet to be made. */
  lemma FreshBoundary(w: World)
    requires Good(w.heap, w.kont, w.held, None)
    ensures Total(OfBounds, w.heap, w.kont)[|w.heap|] == 0
  {
    hide AllRefs, AllBounds, Kinded, SegOk, Intact, SegRefs, SegBounds;
    HeapBoundsAreShares(w.heap);
    BoundsAreShares(w.kont);
    NothingPastTheHeap(w.heap, SegBounds(w.kont) + multiset{}, [], SegRefs(w.kont), w.held);
    SegBoundsBelow(w.kont);
    assert SegBounds(w.kont)[|w.heap|] <= SegRefs(w.kont)[|w.heap|];
  }

  lemma OneMoreBoundary(h: Store, k: seq<KFrame>, h': Store, k': seq<KFrame>)
    requires OneBoundary(h, k) && Total(OfBounds, h, k)[|h|] == 0
    requires Total(OfBounds, h', k') <= Total(OfBounds, h, k) + multiset{|h|}
    ensures OneBoundary(h', k')
  {
    hide Total;
    forall s: Ref
      ensures Total(OfBounds, h', k')[s] <= 1
    {
      assert Total(OfBounds, h', k')[s] <= (Total(OfBounds, h, k) + multiset{|h|})[s];
      assert Total(OfBounds, h, k)[s] <= 1;
    }
  }

  ghost predicate Runs(ws: seq<World>, acts: seq<Act>) {
    |ws| == |acts| + 1 && forall i :: 0 <= i < |acts| ==> TickAt(ws, acts, i)
  }

  ghost predicate TickAt(ws: seq<World>, acts: seq<Act>, i: nat)
    requires |ws| == |acts| + 1 && i < |acts|
  {
    Tick(ws[i], ws[i + 1], acts[i])
  }

  /** The start of a program: nothing captured, nothing installed. */
  ghost predicate Starting(w: World) {
    w.kont == [] && w.installed == multiset{} && w.started == multiset{} && forall i: Ref :: i < |w.heap| ==> !w.heap[i].payload.Slice?
  }

  lemma {:induction false} NoSlices(g: Gauge, h: Store)
    requires forall i: Ref :: i < |h| ==> !h[i].payload.Slice?
    ensures HeapShare(g, h) == multiset{}
  {
    if |h| > 0 {
      NoSlices(g, h[..|h| - 1]);
    }
  }

  lemma StartReady(w: World)
    requires Starting(w)
    ensures Ready(w)
  {
    NoSlices(OfCleanups, w.heap);
    NoSlices(OfBounds, w.heap);
  }

  /** Over any run in which no slice is copied, no cleanup is started more often than it
      was installed; what is neither started nor waiting was dropped. */
  lemma {:induction false} CleanupsStartAtMostOnce(ws: seq<World>, acts: seq<Act>, n: nat)
    requires Runs(ws, acts) && Starting(ws[0]) && n < |ws|
    ensures Ready(ws[n])
    ensures ws[n].started <= ws[n].installed
  {
    hide Tick, OneBoundary, Starting;
    if n == 0 {
      StartReady(ws[0]);
    } else {
      CleanupsStartAtMostOnce(ws, acts, n - 1);
      assert TickAt(ws, acts, n - 1);
      TickSpends(ws[n - 1], ws[n], acts[n - 1]);
    }
  }

  // ---- unwinding ----------------------------------------------------------

  /** One step of running queued cleanups: a saved value replaces the one in flight, or
      a cleanup is entered above the value and returns normally, with whatever value and
      the stack as it was when it was entered. */
  ghost predicate UnwindStep(a: Moment, b: Moment, unit: Ref) {
    && |a.kont| > 0
    && var kf, below := a.kont[|a.kont| - 1], a.kont[..|a.kont| - 1];
       if kf.KDefer? then b.kont == below + [KThunkRet(a.value)] else kf.KThunkRet? && SettleStep(a, b, unit)
  }

  ghost predicate Unwinds(ms: seq<Moment>, unit: Ref) {
    |ms| > 0 && forall i :: 0 <= i < |ms| - 1 ==> UnwoundAt(ms, i, unit)
  }

  ghost predicate UnwoundAt(ms: seq<Moment>, i: nat, unit: Ref)
    requires i < |ms| - 1
  {
    UnwindStep(ms[i], ms[i + 1], unit)
  }

  /** The cleanups entered along the way, in order. */
  function Entered(ms: seq<Moment>): seq<Ref> {
    if |ms| <= 1 then []
    else
      var k := ms[0].kont;
      (if |k| > 0 && k[|k| - 1].KDefer? then [k[|k| - 1].cleanup] else []) + Entered(ms[1..])
  }

  function Backwards(s: seq<Ref>): (r: seq<Ref>) {
    if |s| == 0 then [] else [s[|s| - 1]] + Backwards(s[..|s| - 1])
  }

  lemma {:induction false} UnwindsTail(ms: seq<Moment>, unit: Ref)
    requires Unwinds(ms, unit) && |ms| > 1
    ensures UnwindStep(ms[0], ms[1], unit) && Unwinds(ms[1..], unit)
  {
    hide UnwindStep;
    assert UnwoundAt(ms, 0, unit);
    forall i | 0 <= i < |ms[1..]| - 1
      ensures UnwoundAt(ms[1..], i, unit)
    {
      assert UnwoundAt(ms, i + 1, unit);
    }
  }

  /** The cleanup on top is entered, returns, and its value is dropped for the one it was
      entered above. */
  lemma {:induction false} UnwindOne(ms: seq<Moment>, unit: Ref, rest: seq<KFrame>, c: Ref, floor: nat)
    requires Unwinds(ms, unit) && ms[0].kont == rest + [KDefer(c)] && |rest| > floor
    requires |ms[|ms| - 1].kont| == floor
    ensures |ms| > 2 && Unwinds(ms[2..], unit) && ms[2].kont == rest
    ensures Entered(ms) == [c] + Entered(ms[2..])
  {
    hide SettleStep;
    UnwindsTail(ms, unit);
    assert ms[1].kont == rest + [KThunkRet(ms[0].value)];
    UnwindsTail(ms[1..], unit);
    SavedStep(ms[1], ms[2], unit);
    assert ms[1..][1..] == ms[2..];
  }

  lemma {:induction false} UnwindLast(ms: seq<Moment>, unit: Ref, below: seq<KFrame>, v: Ref)
    requires Unwinds(ms, unit) && ms[0].kont == below + [KThunkRet(v)]
    requires |ms[|ms| - 1].kont| == |below| && forall i :: 0 <= i < |ms| - 1 ==> |ms[i].kont| > |below|
    ensures Entered(ms) == [] && ms[|ms| - 1].kont == below && ms[|ms| - 1].value == v
  {
    hide SettleStep;
    UnwindsTail(ms, unit);
    SavedStep(ms[0], ms[1], unit);
    assert ms[1].kont == below;
    assert |ms| == 2;
  }

  /** Queued cleanups run innermost first, each once, and then the saved value is in
      flight above the frames below, whatever the cleanups returned. */
  lemma {:induction false} UnwindsInnermostFirst(ms: seq<Moment>, unit: Ref, below: seq<KFrame>, v: Ref, cs: seq<Ref>)
    requires Unwinds(ms, unit) && ms[0].kont == below + Queued(v, cs)
    requires |ms[|ms| - 1].kont| == |below| && forall i :: 0 <= i < |ms| - 1 ==> |ms[i].kont| > |below|
    ensures Entered(ms) == Backwards(cs)
    ensures ms[|ms| - 1].kont == below && ms[|ms| - 1].value == v
    decreases |cs|
  {
    hide UnwoundAt, DeferFrames, Entered;
    if |cs| == 0 {
      NoDeferFrames();
      assert ms[0].kont == below + [KThunkRet(v)];
      UnwindLast(ms, unit, below, v);
    } else {
      var n := |cs| - 1;
      assert cs[..n + 1] == cs;
      DeferFramesMore(cs, n);
      var rest := below + Queued(v, cs[..n]);
      assert ms[0].kont == rest + [KDefer(cs[n])];
      UnwindOne(ms, unit, rest, cs[n], |below|);
      var later := ms[2..];
      assert forall i :: 0 <= i < |later| - 1 ==> later[i] == ms[i + 2];
      UnwindsInnermostFirst(later, unit, below, v, cs[..n]);
    }
  }

  lemma SavedStep(a: Moment, b: Moment, unit: Ref)
    requires UnwindStep(a, b, unit) && |a.kont| > 0 && a.kont[|a.kont| - 1].KThunkRet?
    ensures b.kont == a.kont[..|a.kont| - 1] && b.value == a.kont[|a.kont| - 1].saved
  {
  }

  /** The cleanups a frame stands for when it is reached: those of its slice when that
      was abandoned, or those kept when the slice was not captured. */
  function Owed(h: Store, kf: KFrame): Option<seq<Ref>> {
    if kf.KCleanups? then Some(kf.cleanups)
    else if kf.KAfterClause? && kf.res < |h| && h[kf.res].payload.Slice? && h[kf.res].payload.seg.Some? && !InUse(h[kf.res])
    then Some(Defers(h[kf.res].payload.seg.value))
    else None
  }

  /** An abandoned slice's cleanups, captured or not, start innermost first when its
      boundary is reached; and if each returns normally, the value that reached the
      boundary is delivered to the frames below it. */
  lemma AbandonedUnwinds(a: Moment, ms: seq<Moment>, unit: Ref)
    requires |a.kont| > 0 && Owed(a.heap, a.kont[|a.kont| - 1]).Some?
    requires Unwinds(ms, unit) && SettleStep(a, ms[0], unit)
    requires |ms[|ms| - 1].kont| == |a.kont| - 1 && forall i :: 0 <= i < |ms| - 1 ==> |ms[i].kont| > |a.kont| - 1
    ensures Entered(ms) == Backwards(Owed(a.heap, a.kont[|a.kont| - 1]).value)
    ensures ms[|ms| - 1].kont == a.kont[..|a.kont| - 1] && ms[|ms| - 1].value == a.value
  {
    hide Defers, Unwinds, Queued;
    UnwindsInnermostFirst(ms, unit, a.kont[..|a.kont| - 1], a.value, Owed(a.heap, a.kont[|a.kont| - 1]).value);
  }

  lemma {:induction false} BackwardsAt(cs: seq<Ref>, i: nat)
    requires i < |cs|
    ensures |Backwards(cs)| == |cs| && Backwards(cs)[i] == cs[|cs| - 1 - i]
  {
    var rest := cs[..|cs| - 1];
    if |rest| > 0 {
      BackwardsAt(rest, if i > 0 then i - 1 else 0);
    }
  }

  /** At the boundary of a slice that nobody has resumed and nobody can: the cleanups of
      its `defer` frames are entered, each once, the last frame's first, and if each
      returns normally the value that reached the boundary is delivered below it. */
  lemma ForsakenUnwinds(a: Moment, ms: seq<Moment>, held: multiset<Ref>, unit: Ref) returns (cs: seq<Ref>)
    requires Good(a.heap, a.kont, held, None) && |a.kont| > 0 && a.kont[|a.kont| - 1].KAfterClause?
    requires Forsaken(a.heap, held, a.kont[|a.kont| - 1].res)
    requires Unwinds(ms, unit) && SettleStep(a, ms[0], unit)
    requires |ms[|ms| - 1].kont| == |a.kont| - 1 && forall i :: 0 <= i < |ms| - 1 ==> |ms[i].kont| > |a.kont| - 1
    ensures a.heap[a.kont[|a.kont| - 1].res].payload.seg.Some? && CleanupsOf(a.heap[a.kont[|a.kont| - 1].res].payload.seg.value, cs)
    ensures |Entered(ms)| == |cs| && forall i :: 0 <= i < |cs| ==> Entered(ms)[i] == cs[|cs| - 1 - i]
    ensures ms[|ms| - 1].kont == a.kont[..|a.kont| - 1] && ms[|ms| - 1].value == a.value
  {
    var s := a.kont[|a.kont| - 1].res;
    InUseExactly(a.heap, a.kont, held, s);
    assert a.heap[s].payload.seg.Some?;
    cs := Defers(a.heap[s].payload.seg.value);
    assert Owed(a.heap, a.kont[|a.kont| - 1]) == Some(cs);
    hide Defers, Unwinds, Owed, SettleStep, Good, Forsaken, Entered, Backwards, CleanupsOf;
    DefersInOrder(a.heap[s].payload.seg.value);
    AbandonedUnwinds(a, ms, unit);
    if |cs| == 0 {
      NothingBackwards();
    }
    forall i | 0 <= i < |cs|
      ensures |Entered(ms)| == |cs| && Entered(ms)[i] == cs[|cs| - 1 - i]
    {
      BackwardsAt(cs, i);
    }
    if |cs| > 0 {
      BackwardsAt(cs, 0);
    }
  }

  lemma NothingBackwards()
    ensures Backwards([]) == []
  {
  }
}
