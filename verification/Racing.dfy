/** A run of two threads in which a slot is raised between the reading of its level and
    the writing of its value: another slot, immortal since before there were threads, is
    forced by the other thread to a value that reaches it. */
module Racing {
  import opened Common
  import opened Objects
  import opened Kinds
  import opened Levels
  import opened Sharing

  /** Two lazy slots over their closures, a value for each, and an item of the first. */
  predicate Laid(cells: Cells) {
    && |cells| == 7 && cells[0].payload == Op(None, 0) && cells[1].payload == Link(0) && cells[2].payload == Op(None, 0) && cells[3].payload == Link(2)
    && cells[4].payload == Scalar(7) && cells[5].payload == Node(Tuple, [Some(4)]) && cells[6].payload == Node(Tuple, [Some(1)])
  }

  /** What a value reaches lies within any set that its children do not leave. */
  lemma Within(cells: Cells, near: set<Ref>, root: Ref, i: Ref)
    requires root in near && forall a, c :: a in near && a < |cells| && IsChild(cells[a].payload, c) ==> c in near
    requires Reaches(cells, root, i)
    ensures i in near
  {
    var p :| Path(cells, p) && p[0] == root && p[|p| - 1] == i;
    for k := 1 to |p|
      invariant forall j :: 0 <= j < k ==> p[j] in near
    {
      assert Hop(cells, p, k);
    }
  }

  /** The second value reaches the first slot and its closure, and nothing else. */
  lemma Second(cells: Cells, i: Ref)
    requires Laid(cells) && Reaches(cells, 6, i)
    ensures i in {6, 1, 0}
  {
    Within(cells, {6, 1, 0}, 6, i);
  }

  lemma First(cells: Cells, i: Ref)
    requires Laid(cells) && Reaches(cells, 5, i)
    ensures i in {5, 4}
  {
    Within(cells, {5, 4}, 5, i);
  }

  lemma TupleOf(cells: Cells, n: Ref, c: Ref)
    requires c < |cells| && c != n
    ensures Refs(n, Node(Tuple, [Some(c)])) == multiset{c} && KidsAtLeast(cells, Node(Tuple, [Some(c)]), LOCAL)
  {
    var row, rest: seq<Option<Ref>> := [Some(c)], [];
    assert row[1..] == rest && Present(rest, Some(n)) == multiset{};
  }

  lemma LeafOf(cells: Cells, n: Ref)
    ensures Refs(n, Scalar(7)) == multiset{} && KidsAtLeast(cells, Scalar(7), LOCAL)
  {
  }

  predicate SlotsLaid(cells: Cells) {
    && |cells| == 4 && cells[0].payload == Op(None, 0) && cells[1].payload == Link(0) && cells[2].payload == Op(None, 0) && cells[3].payload == Link(2)
    && cells[1].lazy.Unforced? && cells[3].lazy.Unforced? && forall i :: 0 <= i < 4 ==> cells[i].level == LOCAL
  }

  method LaySlots() returns (m: Heap)
    ensures fresh(m) && m.Valid() && !m.draining && SlotsLaid(m.cells) && m.held == multiset{1, 3}
  {
    hide Sound, Closed;
    m := new Heap();
    var v := LazySlot(m);
    var w := LazySlot(m);
  }

  /** A fresh tuple of one item, which the caller held. */
  method Wrap(m: Heap, c: Ref) returns (x: Ref)
    requires m.Valid() && !m.draining && c < |m.cells| && m.held[c] > 0
    modifies m
    ensures m.Valid() && !m.draining && m.held == old(m.held) - multiset{c} + multiset{x}
    ensures x == |old(m.cells)| && m.cells == old(m.cells) + [Cell(LOCAL, 1, Plain, Node(Tuple, [Some(c)]))]
  {
    hide Sound, Closed, Refs, KidsAtLeast;
    TupleOf(m.cells, |m.cells|, c);
    x := m.New(Node(Tuple, [Some(c)]));
  }

  /** The slots, held, the first twice, and an item. */
  method LayItem() returns (m: Heap)
    ensures fresh(m) && m.Valid() && !m.draining && |m.cells| == 5 && SlotsLaid(m.cells[..4]) && m.cells[4] == Cell(LOCAL, 1, Plain, Scalar(7))
    ensures m.held == multiset{1, 1, 3, 4}
  {
    hide Sound, Closed, Refs, KidsAtLeast;
    m := LaySlots();
    Sharing.InHand(m.cells, m.immortals, m.plain, m.held, 1);
    m.Retain(1);
    ghost var c := m.cells;
    assert SlotsLaid(c);
    LeafOf(c, 4);
    var item := m.New(Scalar(7));
    assert m.cells[..4] == c;
    assert m.held == multiset{1, 1, 3, 4};
  }

  /** Two lazy slots, a value for each, and an item of the first value, all local yet. */
  method Lay() returns (m: Heap)
    ensures fresh(m) && m.Valid() && !m.draining && Laid(m.cells)
    ensures m.held[1] > 0 && m.held[3] > 0 && m.held[5] > 0 && m.held[6] > 0
    ensures m.cells[1].lazy.Unforced? && m.cells[3].lazy.Unforced?
    ensures forall i :: 0 <= i < 7 ==> m.cells[i].level == LOCAL
  {
    hide Sound, Closed;
    m := LayItem();
    ghost var c := m.cells;
    var x := Wrap(m, 4);
    var y := Wrap(m, 1);
    assert m.cells == c + [Cell(LOCAL, 1, Plain, Node(Tuple, [Some(4)])), Cell(LOCAL, 1, Plain, Node(Tuple, [Some(1)]))];
    assert forall i :: 0 <= i < 4 ==> m.cells[i] == c[..4][i];
  }

  lemma Near(cells: Cells, root: Ref, i: Ref)
    requires Laid(cells) && Reaches(cells, root, i)
    ensures root == 3 ==> i in {3, 2}
    ensures root == 1 ==> i in {1, 0}
  {
    if root == 3 {
      Within(cells, {3, 2}, 3, i);
    } else if root == 1 {
      Within(cells, {1, 0}, 1, i);
    }
  }

  /** Marking one of the slots, or the first value: what it cannot reach stays as it is. */
  lemma MarkedOnly(was: Cells, now: Cells, root: Ref, level: Level)
    requires Laid(was) && Marked(was, now, root, level) && (root == 1 || root == 3 || root == 5)
    ensures Laid(now) && now[root].level >= level && forall i :: 0 <= i < 7 ==> now[i].lazy == was[i].lazy && now[i].level >= was[i].level
    ensures root == 3 ==> now[1] == was[1] && now[4] == was[4] && now[5] == was[5] && now[6] == was[6]
    ensures root == 1 ==> now[3] == was[3] && now[4] == was[4] && now[5] == was[5] && now[6] == was[6]
    ensures root == 5 ==> now[1] == was[1] && now[3] == was[3] && now[6] == was[6]
    ensures was[root].level < level ==> now[root].level == level
    ensures root == 5 && was[4].level < level ==> now[4].level <= level
  {
    ReachesItself(was, root);
    forall i: Ref | i < 7
      ensures Reaches(was, root, i) ==> if root == 3 then i in {3, 2} else if root == 1 then i in {1, 0} else i in {5, 4}
    {
      if Reaches(was, root, i) {
        if root == 5 {
          First(was, i);
        } else {
          Near(was, root, i);
        }
      }
    }
    hide Reaches;
  }

  /** One thread is forcing the first slot, which several threads reach, and another the
      second, immortal since before there were threads. */
  method Claims() returns (m: Heap)
    ensures fresh(m) && m.Valid() && !m.draining && Laid(m.cells)
    ensures m.held[1] > 0 && m.held[3] > 0 && m.held[5] > 0 && m.held[6] > 0
    ensures m.cells[1].lazy.Forcing? && m.cells[3].lazy.Forcing? && m.cells[1].level == SHARED && m.cells[3].level == IMMORTAL
    ensures forall i :: 4 <= i < 7 ==> m.cells[i].level == LOCAL
  {
    hide Sound, Closed, Marked;
    m := Lay();
    ghost var c0 := m.cells;
    m.MarkLevel(3, IMMORTAL);
    MarkedOnly(c0, m.cells, 3, IMMORTAL);
    ghost var c1 := m.cells;
    m.MarkLevel(1, SHARED);
    MarkedOnly(c1, m.cells, 1, SHARED);
    var mine := m.Claim(1);
    var theirs := m.Claim(3);
  }

  /** The other thread's value reaches the first slot, but not the first value's item. */
  lemma LiftedFar(was: Cells, now: Cells)
    requires Laid(was) && Lifted(was, now, 6, IMMORTAL)
    ensures now[1].level >= IMMORTAL && now[4].level == was[4].level && now[5].level == was[5].level
  {
    ReachesItself(was, 6);
    assert IsChild(was[6].payload, 1);
    ReachesOn(was, 6, 6, 1);
    if Reaches(was, 6, 4) {
      Second(was, 4);
    }
    if Reaches(was, 6, 5) {
      Second(was, 5);
    }
  }

  lemma NotClosed(cells: Cells)
    requires Closed(cells) && |cells| == 7 && cells[5].payload == Node(Tuple, [Some(4)]) && cells[1].level == IMMORTAL && cells[4].level == SHARED
    ensures !Closed(Published(cells, 1, 5))
  {
    assert IsChild(cells[5].payload, 4);
    PublishIsClosed(cells, 1, cells[5].payload, cells[5].lazy);
  }

  /** What a thread holds reads as it did, though another slot has been published. */
  lemma ReadsAlike(m: Heap, was: Cells, h: Store, mid: Store, log: seq<Ref>, w: Ref, forced: Ref, x: Ref)
    requires m.Valid() && !m.draining && Encoded(was, h) && w < |h| && forced < |h|
    requires SamePayloads(h[w := h[w].(payload := was[forced].payload)], mid) && Frees(mid, m.plain, log) && m.held[x] > 0 && x != w && x < |h|
    ensures x < |m.cells| && m.cells[x].payload == was[x].payload
  {
    HeldKept(mid, m.plain, log, m.immortals, m.held, [], x);
    Sharing.InHand(m.cells, m.immortals, m.plain, m.held, x);
  }

  /** The first thread reads its slot's level and marks its value to match; the other
      publishes a value that reaches that slot.  The slot is immortal now, and what the
      first thread is about to write into it is not. */
  method RaceArises() returns (m: Heap, v: Ref, forced: Ref)
    ensures m.Valid() && v < |m.cells| && forced < |m.cells| && Forced(m.cells, v, forced, SHARED) && m.cells[v].level == IMMORTAL
    ensures m.held[v] > 0 && m.held[forced] > 0 && !Closed(Published(m.cells, v, forced))
  {
    hide Sound, Frees, Marked, Lifted, Closed, Encoded;
    m := Claims();
    v, forced := 1, 5;
    ghost var c0 := m.cells;
    m.MarkLevel(5, SHARED);
    MarkedOnly(c0, m.cells, 5, SHARED);
    ghost var c1, h1 := m.cells, m.plain;
    assert c1[4].level == SHARED by {
      Deeper(c1);
    }
    EncodedOf(m);
    ghost var mid, log := m.Publish(3, 6);
    LiftedFar(c1, m.cells);
    ReadsAlike(m, c1, h1, mid, log, 3, 6, 5);
    NotClosed(m.cells);
  }

  lemma EncodedOf(m: Heap)
    requires m.Valid() && !m.draining
    ensures Encoded(m.cells, m.plain)
  {
  }

  lemma Deeper(cells: Cells)
    requires Laid(cells) && Closed(cells)
    ensures cells[4].level >= cells[5].level
  {
    assert IsChild(cells[5].payload, 4);
  }
}
