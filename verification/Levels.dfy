/** Who can reach a value: the sharing levels, the signed counts that encode them,
    and the walk that raises a value and everything below it. */
module Levels {
  import opened Common
  import opened Objects

  /** One thread, several threads, or a global: alive until exit and not counted. */
  const LOCAL: nat := 0
  const SHARED: nat := 1
  const IMMORTAL: nat := 2

  type Level = n: nat | n <= IMMORTAL

  /** What a lazy slot is: no lazy slot at all, one nobody has forced, or one that
      some thread is forcing right now. */
  datatype Lazy = Plain | Unforced | Forcing

  datatype Cell = Cell(level: Level, rc: int, lazy: Lazy, payload: Payload)

  type Cells = seq<Cell>

  // ---- counting -----------------------------------------------------------

  /** A retain; `None` is the fault of retaining a freed value. */
  function Retained(c: Cell): Option<Cell> {
    if c.rc > 0 then Some(c.(rc := c.rc + 1))
    else if c.level == IMMORTAL then Some(c)
    else if c.level == LOCAL || c.rc >= 0 then None
    else Some(c.(rc := c.rc - 1))
  }

  /** A release, and whether it dropped the last reference. */
  function Released(c: Cell): Option<(Cell, bool)> {
    if c.rc > 1 then Some((c.(rc := c.rc - 1), false))
    else if c.rc == 1 then Some((c.(rc := 0), true))
    else if c.level == IMMORTAL then Some((c, false))
    else if c.level == LOCAL || c.rc >= 0 then None
    else Some((c.(rc := c.rc + 1), c.rc == -1))
  }

  predicate Unique(c: Cell) {
    if c.rc > 0 then c.rc == 1 else c.rc == -1 && c.level != IMMORTAL
  }

  predicate UniqueLocal(c: Cell) {
    c.rc == 1
  }

  /** The sign carries the level: a local count is positive, a shared one negative,
      and an immortal cell's is stale.  `o` is the same object counted plainly, with
      one more owner while the cell is immortal: the sweep at exit. */
  ghost predicate Encodes(c: Cell, o: Obj) {
    && c.payload == o.payload
    && (c.level == LOCAL ==> c.rc == o.rc)
    && (c.level == SHARED ==> c.rc + o.rc == 0)
    && (c.level == IMMORTAL ==> c.rc <= 0 && o.rc > 0)
  }

  lemma RetainCounts(c: Cell, o: Obj)
    requires Encodes(c, o)
    ensures Retained(c).Some? <==> o.rc > 0
    ensures o.rc > 0 ==> Encodes(Retained(c).value, o.(rc := o.rc + 1)) && Retained(c).value == c.(rc := Retained(c).value.rc)
  {
  }

  /** A release frees the cell exactly when the plain count says it was the last
      reference, and an immortal cell never. */
  lemma ReleaseCounts(c: Cell, o: Obj)
    requires Encodes(c, o)
    ensures Released(c).Some? <==> o.rc > 0
    ensures o.rc > 0 && (c.level == IMMORTAL ==> o.rc > 1) ==>
              && Encodes(Released(c).value.0, o.(rc := o.rc - 1)) && Released(c).value.0 == c.(rc := Released(c).value.0.rc)
              && (Released(c).value.1 <==> o.rc == 1)
  {
  }

  lemma UniqueMeansOne(c: Cell, o: Obj)
    requires Encodes(c, o)
    ensures Unique(c) <==> o.rc == 1 && c.level != IMMORTAL
    ensures UniqueLocal(c) <==> o.rc == 1 && c.level == LOCAL
  {
  }

  // ---- raising ------------------------------------------------------------

  function Raised(c: Cell, level: Level): Cell {
    c.(level := level, rc := if c.rc > 0 then (if level == IMMORTAL then 0 else -c.rc) else c.rc)
  }

  /** Raising keeps the magnitude of a count, except that a local one is dropped when
      its cell becomes immortal. */
  lemma RaisingKeepsCounts(c: Cell, o: Obj, level: Level)
    requires Encodes(c, o) && o.rc > 0 && c.level < level
    ensures Encodes(Raised(c, level), if level == IMMORTAL then o.(rc := o.rc + 1) else o)
    ensures var r := Raised(c, level).rc; if c.level == LOCAL && level == IMMORTAL then r == 0 else r + o.rc == 0
  {
  }

  /** No value reaches one that fewer threads may count. */
  ghost predicate Closed(cells: Cells) {
    forall i: Ref, c: Ref {:trigger IsChild(cells[i].payload, c)} :: i < |cells| && IsChild(cells[i].payload, c) ==> c < |cells| && cells[i].level <= cells[c].level
  }

  ghost predicate Hop(cells: Cells, p: seq<Ref>, k: nat)
    requires 0 < k < |p|
  {
    p[k - 1] < |cells| && IsChild(cells[p[k - 1]].payload, p[k])
  }

  ghost predicate Path(cells: Cells, p: seq<Ref>) {
    |p| > 0 && p[|p| - 1] < |cells| && forall k :: 0 < k < |p| ==> Hop(cells, p, k)
  }

  ghost predicate Reaches(cells: Cells, a: Ref, b: Ref) {
    exists p :: Path(cells, p) && p[0] == a && p[|p| - 1] == b
  }

  lemma ReachesItself(cells: Cells, a: Ref)
    requires a < |cells|
    ensures Reaches(cells, a, a)
  {
    assert Path(cells, [a]);
  }

  lemma ReachesOn(cells: Cells, a: Ref, b: Ref, c: Ref)
    requires Reaches(cells, a, b) && c < |cells| && IsChild(cells[b].payload, c)
    ensures Reaches(cells, a, c)
  {
    var p :| Path(cells, p) && p[0] == a && p[|p| - 1] == b;
    var q := p + [c];
    forall k | 0 < k < |q|
      ensures Hop(cells, q, k)
    {
      assert k < |p| ==> Hop(cells, p, k);
    }
    assert Path(cells, q);
  }

  /** Reaching an object means it is one. */
  lemma ReachedExists(cells: Cells, a: Ref, b: Ref)
    requires Reaches(cells, a, b)
    ensures b < |cells|
  {
  }

  /** Everything a value reaches is at least as shared as it is. */
  lemma {:induction false} ClosedPath(cells: Cells, p: seq<Ref>, k: nat)
    requires Closed(cells) && Path(cells, p) && k < |p|
    ensures p[0] < |cells| && p[k] < |cells| && cells[p[0]].level <= cells[p[k]].level
  {
    if k > 0 {
      ClosedPath(cells, p, k - 1);
      assert Hop(cells, p, k);
    } else if |p| > 1 {
      assert Hop(cells, p, 1);
    }
  }

  // ---- the walk -----------------------------------------------------------

  /** What raising `root` must do: exactly the cells it reaches that are below
      `level` are raised to it. */
  ghost predicate Marked(was: Cells, now: Cells, root: Ref, level: Level) {
    && |now| == |was|
    && forall i: Ref :: i < |was| ==>
         now[i] == if Reaches(was, root, i) && was[i].level < level then Raised(was[i], level) else was[i]
  }

  /** The walk so far: `work` holds cells still to be raised, below which nothing has
      been. */
  ghost predicate Walking(was: Cells, now: Cells, work: seq<Ref>, root: Ref, level: Level) {
    && |now| == |was| && root < |was|
    && (forall i: Ref :: i < |was| ==>
         now[i] == was[i] || (was[i].level < level && now[i] == Raised(was[i], level) && Reaches(was, root, i)))
    && (forall w :: w in work ==> w < |was| && Reaches(was, root, w))
    && (forall i: Ref, c: Ref {:trigger IsChild(was[i].payload, c)} :: i < |was| && now[i] != was[i] && IsChild(was[i].payload, c) ==>
         c < |was| && (now[c].level >= level || c in work))
    && (now[root].level >= level || root in work)
  }

  lemma WalkBegins(was: Cells, root: Ref, level: Level)
    requires root < |was|
    ensures Walking(was, was, [root], root, level)
  {
    ReachesItself(was, root);
  }

  /** A cell that is high enough already needs no visit. */
  lemma WalkSkips(was: Cells, now: Cells, work: seq<Ref>, v: Ref, root: Ref, level: Level)
    requires Walking(was, now, work + [v], root, level) && v < |now| && now[v].level >= level
    ensures Walking(was, now, work, root, level)
  {
    hide Reaches;
    assert forall w :: w in work + [v] ==> w in work || w == v;
    assert forall w :: w in work ==> w in work + [v];
  }

  /** Raising a cell, and queueing those of its children that are too low. */
  lemma WalkRaises(was: Cells, now: Cells, work: seq<Ref>, v: Ref, more: seq<Ref>, root: Ref, level: Level)
    requires Walking(was, now, work + [v], root, level) && v < |now| && now[v].level < level
    requires forall c :: c in more ==> c < |now| && IsChild(now[v].payload, c)
    requires forall c: Ref :: IsChild(now[v].payload, c) ==> c < |now| && (now[v := Raised(now[v], level)][c].level >= level || c in more)
    ensures Walking(was, now[v := Raised(now[v], level)], work + more, root, level)
  {
    hide Reaches;
    assert v in work + [v];
    var now' := now[v := Raised(now[v], level)];
    assert now[v] == was[v];
    forall w | w in work + more
      ensures w < |was| && Reaches(was, root, w)
    {
      if w in work {
        assert w in work + [v];
      } else {
        ReachesOn(was, root, v, w);
      }
    }
    forall i: Ref, c: Ref | i < |was| && now'[i] != was[i] && IsChild(was[i].payload, c)
      ensures c < |was| && (now'[c].level >= level || c in work + more)
    {
      if i != v {
        assert now[c].level >= level || c in work + [v];
      }
    }
  }

  lemma {:induction false} WalkedPath(was: Cells, now: Cells, root: Ref, level: Level, p: seq<Ref>, k: nat)
    requires Walking(was, now, [], root, level) && Closed(was)
    requires Path(was, p) && p[0] == root && k < |p|
    ensures p[k] < |was| && now[p[k]].level >= level
  {
    hide Reaches;
    if k > 0 {
      WalkedPath(was, now, root, level, p, k - 1);
      assert Hop(was, p, k);
      assert now[p[k - 1]] == was[p[k - 1]] ==> was[p[k - 1]].level <= was[p[k]].level;
    }
  }

  /** When nothing is left to visit, exactly what had to be raised has been, and the
      levels are closed again. */
  lemma WalkEnds(was: Cells, now: Cells, root: Ref, level: Level)
    requires Walking(was, now, [], root, level) && Closed(was)
    ensures Marked(was, now, root, level) && Closed(now)
  {
    forall i: Ref | i < |was| && Reaches(was, root, i)
      ensures now[i].level >= level
    {
      var p :| Path(was, p) && p[0] == root && p[|p| - 1] == i;
      WalkedPath(was, now, root, level, p, |p| - 1);
    }
  }

  /** What marking is for: everything `root` reaches is at least at the level. */
  lemma MarkedReach(was: Cells, now: Cells, root: Ref, level: Level)
    requires Marked(was, now, root, level) && Closed(was)
    ensures Closed(now)
    ensures forall i: Ref :: Reaches(now, root, i) ==> i < |now| && now[i].level >= level
    ensures forall i: Ref :: i < |was| ==> now[i].level >= was[i].level && now[i].payload == was[i].payload
  {
    hide Reaches;
    forall i: Ref, c: Ref | i < |now| && IsChild(now[i].payload, c)
      ensures c < |now| && now[i].level <= now[c].level
    {
      assert IsChild(was[i].payload, c);
      if Reaches(was, root, i) {
        ReachesOn(was, root, i, c);
      }
    }
    forall i: Ref | Reaches(now, root, i)
      ensures i < |now| && now[i].level >= level
    {
      SameReach(now, was, root, i);
      ReachedExists(was, root, i);
    }
  }

  lemma SameReach(now: Cells, was: Cells, a: Ref, b: Ref)
    requires |now| == |was| && forall i: Ref :: i < |was| ==> now[i].payload == was[i].payload
    requires Reaches(now, a, b)
    ensures Reaches(was, a, b)
  {
    var p :| Path(now, p) && p[0] == a && p[|p| - 1] == b;
    assert Path(was, p) by {
      forall k | 0 < k < |p|
        ensures Hop(was, p, k)
      {
        assert Hop(now, p, k);
      }
    }
  }

  /** How many cells are below `level`. */
  function Below(cells: Cells, level: Level): nat {
    if |cells| == 0 then 0
    else Below(cells[..|cells| - 1], level) + (if cells[|cells| - 1].level < level then 1 else 0)
  }

  lemma {:induction false} BelowFalls(cells: Cells, v: Ref, c: Cell, level: Level)
    requires v < |cells| && cells[v].level < level <= c.level
    ensures Below(cells[v := c], level) < Below(cells, level)
  {
    var n := |cells| - 1;
    if v < n {
      BelowFalls(cells[..n], v, c, level);
      assert cells[v := c][..n] == cells[..n][v := c];
    } else {
      assert cells[v := c][..n] == cells[..n];
    }
  }

  // ---- forcing a lazy slot while others mark ------------------------------

  /** Writing a payload into `v` keeps the levels closed exactly when every child of
      it is as shared as `v` is by then. */
  lemma PublishIsClosed(cells: Cells, v: Ref, p: Payload, lazy: Lazy)
    requires Closed(cells) && v < |cells| && forall c: Ref :: IsChild(p, c) ==> c < |cells|
    ensures Closed(cells[v := cells[v].(payload := p, lazy := lazy)])
            <==> forall c: Ref :: IsChild(p, c) ==> cells[v].level <= cells[c].level
  {
    var now := cells[v := cells[v].(payload := p, lazy := lazy)];
    assert forall c: Ref :: c < |cells| ==> now[c].level == cells[c].level;
    if Closed(now) {
      forall c: Ref | IsChild(p, c)
        ensures cells[v].level <= cells[c].level
      {
        assert IsChild(now[v].payload, c);
      }
    }
  }

  /** The slot `v` once `forced` has been written into it. */
  function Published(cells: Cells, v: Ref, forced: Ref): Cells
    requires v < |cells| && forced < |cells|
  {
    cells[v := cells[v].(payload := cells[forced].payload, lazy := cells[forced].lazy)]
  }

  /** A thread about to publish: it read the slot's level, and marked the result to
      match. */
  ghost predicate Forced(cells: Cells, v: Ref, forced: Ref, read: Level) {
    Closed(cells) && v < |cells| && forced < |cells| && cells[v].lazy.Forcing? && SHARED <= read <= cells[forced].level
  }

  /** If no other thread raised the slot after its level was read, the write keeps the
      levels closed; and whatever happened, it never lets several threads reach what
      one thread counts alone. */
  lemma PublishAfterMark(cells: Cells, v: Ref, forced: Ref, read: Level)
    requires Forced(cells, v, forced, read)
    ensures var now := Published(cells, v, forced);
            && (cells[v].level <= read ==> Closed(now))
            && forall i: Ref, c: Ref {:trigger IsChild(now[i].payload, c)} ::
                 i < |now| && IsChild(now[i].payload, c) && now[i].level >= SHARED ==> c < |now| && now[c].level >= SHARED
  {
    var p := cells[forced].payload;
    assert forall c: Ref :: IsChild(p, c) ==> c < |cells| && cells[forced].level <= cells[c].level;
    PublishIsClosed(cells, v, p, cells[forced].lazy);
  }

  /** It can be raised in between: a global that reaches the slot may be published
      while a task is forcing it.  Then an immortal value reaches a counted one. */
  lemma PublishRaces()
    ensures exists cells: Cells :: Forced(cells, 1, 3, SHARED) && cells[1].level > SHARED && !Closed(Published(cells, 1, 3))
  {
    var closure := Cell(IMMORTAL, 0, Plain, Node(Clos(0), []));
    var slot := Cell(IMMORTAL, -1, Forcing, Link(0));
    var item := Cell(SHARED, -1, Plain, Scalar(7));
    var forced := Cell(SHARED, -1, Plain, Node(Tuple, [Some(2)]));
    var cells: Cells := [closure, slot, item, forced];
    assert Closed(cells);
    assert IsChild(cells[3].payload, 2);
    PublishIsClosed(cells, 1, cells[3].payload, cells[3].lazy);
    assert Forced(cells, 1, 3, SHARED) && !Closed(Published(cells, 1, 3));
  }
}
