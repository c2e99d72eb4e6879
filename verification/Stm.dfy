/** The optimistic transaction log (`@stm_*`) and its serializability.

    A transaction logs each variable it readLog with the version it saw, and each
    write in order, the newest last.  A commit validates the versions under one
    lock and, if they all still agree, publishes the writes.  Every operation
    touches the shared store in one lock section, so a run is an interleaving of
    the operations below. */
module Stm {
  import opened Common

  type Value = int

  /** Versions are unsigned 64-bit counters.  `version` counts every write ever
      committed to the variable; what the code stores and compares is that count
      modulo `WRAP`. */
  const WRAP: nat := 0x1_0000_0000_0000_0000

  datatype TVar = TVar(val: Value, version: nat)
  datatype ReadEntry = ReadEntry(tv: nat, at: nat)
  datatype WriteEntry = WriteEntry(tv: nat, val: Value)

  type Store = seq<TVar>

  function Stamp(version: nat): nat {
    version % WRAP
  }

  function Vals(store: Store): seq<Value> {
    seq(|store|, i requires 0 <= i < |store| => store[i].val)
  }

  // ---- what the log operations compute ------------------------------------

  /** The newest buffered write to `tv`, searching from the end of the log. */
  function LatestWrite(writeLog: seq<WriteEntry>, tv: nat): Option<Value> {
    if |writeLog| == 0 then None
    else if writeLog[|writeLog| - 1].tv == tv then Some(writeLog[|writeLog| - 1].val)
    else LatestWrite(writeLog[..|writeLog| - 1], tv)
  }

  /** It is the value of the last entry for the variable, and there is none exactly when
      there is no entry for it. */
  lemma {:induction false} LatestIsLast(writeLog: seq<WriteEntry>, tv: nat) returns (j: nat)
    ensures LatestWrite(writeLog, tv).Some? ==>
              && j < |writeLog| && writeLog[j].tv == tv && LatestWrite(writeLog, tv).value == writeLog[j].val
              && forall i :: j < i < |writeLog| ==> writeLog[i].tv != tv
    ensures LatestWrite(writeLog, tv).None? <==> forall i :: 0 <= i < |writeLog| ==> writeLog[i].tv != tv
  {
    j := 0;
    if |writeLog| > 0 {
      var n := |writeLog| - 1;
      if writeLog[n].tv == tv {
        j := n;
      } else {
        j := LatestIsLast(writeLog[..n], tv);
      }
    }
  }

  predicate WritesInRange(writeLog: seq<WriteEntry>, n: nat) {
    forall i :: 0 <= i < |writeLog| ==> writeLog[i].tv < n
  }

  predicate ReadsInRange(readLog: seq<ReadEntry>, n: nat) {
    forall i :: 0 <= i < |readLog| ==> readLog[i].tv < n
  }

  /** Validation: nothing the transaction read carries another stamp now. */
  predicate Unchanged(store: Store, readLog: seq<ReadEntry>)
    requires ReadsInRange(readLog, |store|)
  {
    forall i :: 0 <= i < |readLog| ==> Stamp(store[readLog[i].tv].version) == Stamp(readLog[i].at)
  }

  /** The store once the buffered writes are applied, oldest first. */
  function Publish(store: Store, writeLog: seq<WriteEntry>): (r: Store)
    requires WritesInRange(writeLog, |store|)
    ensures |r| == |store|
  {
    if |writeLog| == 0 then store
    else
      var s := Publish(store, writeLog[..|writeLog| - 1]);
      var w := writeLog[|writeLog| - 1];
      s[w.tv := TVar(w.val, s[w.tv].version + 1)]
  }

  /** How often `writes` writes `tv`. */
  function WriteCount(writeLog: seq<WriteEntry>, tv: nat): nat {
    if |writeLog| == 0 then 0
    else WriteCount(writeLog[..|writeLog| - 1], tv) + (if writeLog[|writeLog| - 1].tv == tv then 1 else 0)
  }

  /** Publishing leaves every variable with its latest write (or untouched), and
      moves its version by the number of writes to it. */
  lemma {:induction false} PublishMeansLatest(store: Store, writeLog: seq<WriteEntry>, tv: nat)
    requires WritesInRange(writeLog, |store|)
    requires tv < |store|
    ensures Publish(store, writeLog)[tv].val ==
            (match LatestWrite(writeLog, tv) case Some(v) => v case None => store[tv].val)
    ensures Publish(store, writeLog)[tv].version == store[tv].version + WriteCount(writeLog, tv)
    ensures LatestWrite(writeLog, tv).None? <==> WriteCount(writeLog, tv) == 0
  {
    if |writeLog| > 0 {
      PublishMeansLatest(store, writeLog[..|writeLog| - 1], tv);
    }
  }

  // ---- transactions -------------------------------------------------------

  /** What a transaction does next, as a function of what it has seen so far. */
  datatype Action = DoRead(tv: nat) | DoWrite(tv: nat, val: Value) | DoSave | DoRollback(mark: nat) | DoCommit

  /** One completed operation: a read with the value it returned, and so on. */
  datatype Event =
    | Read(tv: nat, seen: Value)
    | Write(tv: nat, val: Value)
    | Save(mark: nat)
    | Rollback(mark: nat)

  type Body = seq<Event> -> Action

  /** What one event does to the buffered writes `o`. */
  function Buffer(o: seq<WriteEntry>, e: Event): seq<WriteEntry> {
    match e
    case Write(tv, v) => o + [WriteEntry(tv, v)]
    case Rollback(m) => if m <= |o| then o[..m] else o
    case _ => o
  }

  /** The writes still buffered after `events`. */
  function Overlay(events: seq<Event>): seq<WriteEntry> {
    if |events| == 0 then []
    else Buffer(Overlay(events[..|events| - 1]), events[|events| - 1])
  }

  /** What a read of `tv` returns to a transaction alone on the store `vals`. */
  function Lookup(writeLog: seq<WriteEntry>, vals: seq<Value>, tv: nat): Value
    requires tv < |vals|
  {
    match LatestWrite(writeLog, tv)
    case Some(v) => v
    case None => vals[tv]
  }

  /** `events` is the run of `body` alone, with no interruption, on a store that
      holds `vals`: each action is the one `body` asks for, and each read sees the
      transaction's own latest write or else the store. */
  ghost predicate AtomicRun(body: Body, vals: seq<Value>, events: seq<Event>) {
    |events| > 0 ==>
      var prior := events[..|events| - 1];
      AtomicRun(body, vals, prior) &&
      match events[|events| - 1]
      case Read(tv, seen) => body(prior) == DoRead(tv) && tv < |vals| && seen == Lookup(Overlay(prior), vals, tv)
      case Write(tv, v) => body(prior) == DoWrite(tv, v) && tv < |vals|
      case Save(m) => body(prior) == DoSave && m == |Overlay(prior)|
      case Rollback(m) => body(prior) == DoRollback(m) && m <= |Overlay(prior)|
  }

  /** Running alone is deterministic: the store fixes every event. */
  lemma {:induction false} AtomicRunDetermined(body: Body, vals: seq<Value>, e1: seq<Event>, e2: seq<Event>)
    requires AtomicRun(body, vals, e1) && AtomicRun(body, vals, e2)
    requires |e1| == |e2|
    ensures e1 == e2
  {
    if |e1| > 0 {
      var n := |e1| - 1;
      AtomicRunDetermined(body, vals, e1[..n], e2[..n]);
      assert e1 == e1[..n] + [e1[n]] && e2 == e2[..n] + [e2[n]];
    }
  }

  /** The store values after applying `writes` in order. */
  function Apply(vals: seq<Value>, writeLog: seq<WriteEntry>): (r: seq<Value>)
    ensures |r| == |vals|
  {
    if |writeLog| == 0 then vals
    else
      var w := writeLog[|writeLog| - 1];
      var r := Apply(vals, writeLog[..|writeLog| - 1]);
      if w.tv < |vals| then r[w.tv := w.val] else r
  }

  lemma {:induction false} PublishIsApply(store: Store, writeLog: seq<WriteEntry>)
    requires WritesInRange(writeLog, |store|)
    ensures Vals(Publish(store, writeLog)) == Apply(Vals(store), writeLog)
  {
    if |writeLog| > 0 {
      PublishIsApply(store, writeLog[..|writeLog| - 1]);
    }
  }

  // ---- the interleaved machine --------------------------------------------

  datatype Thread =
    | Idle
    | Running(body: Body, events: seq<Event>, readLog: seq<ReadEntry>, writeLog: seq<WriteEntry>)

  /** What the store went through, in the order it happened. */
  datatype Change = Created(val: Value) | Committed(body: Body, events: seq<Event>)

  datatype State = State(store: Store, threads: seq<Thread>, history: seq<Change>)

  ghost predicate Init(s: State) {
    s.store == [] && s.history == [] && forall t :: 0 <= t < |s.threads| ==> s.threads[t].Idle?
  }

  /** A transactional variable is created. */
  ghost predicate NewVar(s: State, v: Value, s': State) {
    s' == s.(store := s.store + [TVar(v, 0)], history := s.history + [Created(v)])
  }

  /** A thread starts a transaction, dropping whatever its log held. */
  ghost predicate Begin(s: State, t: nat, body: Body, s': State) {
    t < |s.threads| && s' == s.(threads := s.threads[t := Running(body, [], [], [])])
  }

  /** A thread gives its transaction up (`retry`, or a fault unwinding it). */
  ghost predicate Abandon(s: State, t: nat, s': State) {
    t < |s.threads| && s' == s.(threads := s.threads[t := Idle])
  }

  function AfterRead(store: Store, th: Thread, tv: nat): Thread
    requires th.Running? && tv < |store|
  {
    match LatestWrite(th.writeLog, tv)
    case Some(v) => th.(events := th.events + [Read(tv, v)])
    case None => th.(events := th.events + [Read(tv, store[tv].val)],
                     readLog := th.readLog + [ReadEntry(tv, store[tv].version)])
  }

  function AfterWrite(th: Thread, tv: nat, v: Value): Thread
    requires th.Running?
  {
    th.(events := th.events + [Write(tv, v)], writeLog := th.writeLog + [WriteEntry(tv, v)])
  }

  function AfterSave(th: Thread): Thread
    requires th.Running?
  {
    th.(events := th.events + [Save(|th.writeLog|)])
  }

  function AfterRollback(th: Thread, mark: nat): Thread
    requires th.Running? && mark <= |th.writeLog|
  {
    th.(events := th.events + [Rollback(mark)], writeLog := th.writeLog[..mark])
  }

  /** The thread after the operation its body asks for; `None` when that is the
      commit, or would fault. */
  function AfterNext(store: Store, th: Thread): Option<Thread>
    requires th.Running?
  {
    match th.body(th.events)
    case DoRead(tv) => if tv < |store| then Some(AfterRead(store, th, tv)) else None
    case DoWrite(tv, v) => if tv < |store| then Some(AfterWrite(th, tv, v)) else None
    case DoSave => Some(AfterSave(th))
    case DoRollback(m) => if m <= |th.writeLog| then Some(AfterRollback(th, m)) else None
    case DoCommit => None
  }

  /** One operation inside a transaction. */
  ghost predicate Operate(s: State, t: nat, s': State) {
    && t < |s.threads| && s.threads[t].Running?
    && AfterNext(s.store, s.threads[t]).Some?
    && s' == s.(threads := s.threads[t := AfterNext(s.store, s.threads[t]).value])
  }

  /** A commit, whose answer is `ok`. */
  ghost predicate Commit(s: State, t: nat, ok: bool, s': State) {
    t < |s.threads| && s.threads[t].Running? &&
    var th := s.threads[t];
    th.body(th.events) == DoCommit && LogInRange(s.store, th) &&
    ok == Unchanged(s.store, th.readLog) &&
    s'.threads == s.threads[t := Idle] &&
    if ok then s'.store == Publish(s.store, th.writeLog) && s'.history == s.history + [Committed(th.body, th.events)]
    else s'.store == s.store && s'.history == s.history
  }

  predicate LogInRange(store: Store, th: Thread)
    requires th.Running?
  {
    ReadsInRange(th.readLog, |store|) && WritesInRange(th.writeLog, |store|)
  }

  ghost predicate Next(s: State, s': State) {
    || (exists v :: NewVar(s, v, s'))
    || (exists t: nat, body :: Begin(s, t, body, s'))
    || (exists t: nat :: Abandon(s, t, s'))
    || (exists t: nat :: Operate(s, t, s'))
    || (exists t: nat, ok :: Commit(s, t, ok, s'))
  }

  // ---- the invariant ------------------------------------------------------

  /** The logged version is no later than the current one, and while the two are
      equal the value the read saw is still the variable's. */
  predicate Justifies(store: Store, e: ReadEntry, tv: nat, seen: Value) {
    && e.tv == tv < |store|
    && e.at <= store[tv].version
    && (e.at == store[tv].version ==> store[tv].val == seen)
  }

  /** The read `events[i]` was answered by the transaction's own log or is
      justified by an entry of it. */
  ghost predicate ReadCovered(store: Store, th: Thread, i: nat)
    requires th.Running? && i < |th.events| && th.events[i].Read?
  {
    var e := th.events[i];
    match LatestWrite(Overlay(th.events[..i]), e.tv)
    case Some(v) => e.seen == v
    case None => exists j :: 0 <= j < |th.readLog| && Justifies(store, th.readLog[j], e.tv, e.seen)
  }

  /** Event `i` is the action the body asked for, on a variable that exists. */
  ghost predicate Follows(store: Store, th: Thread, i: nat)
    requires th.Running? && i < |th.events|
  {
    var prior := th.events[..i];
    match th.events[i]
    case Read(tv, seen) => th.body(prior) == DoRead(tv) && tv < |store|
    case Write(tv, v) => th.body(prior) == DoWrite(tv, v) && tv < |store|
    case Save(m) => th.body(prior) == DoSave && m == |Overlay(prior)|
    case Rollback(m) => th.body(prior) == DoRollback(m) && m <= |Overlay(prior)|
  }

  ghost predicate ThreadInv(store: Store, th: Thread) {
    th.Running? ==>
      && LogInRange(store, th)
      && th.writeLog == Overlay(th.events)
      && (forall j :: 0 <= j < |th.readLog| ==> th.readLog[j].at <= store[th.readLog[j].tv].version)
      && (forall i :: 0 <= i < |th.events| ==> Follows(store, th, i))
      && (forall i :: 0 <= i < |th.events| && th.events[i].Read? ==> ReadCovered(store, th, i))
  }

  ghost predicate Inv(s: State) {
    forall t :: 0 <= t < |s.threads| ==> ThreadInv(s.store, s.threads[t])
  }

  /** A store that only moved on: variables are kept, versions never fall, and a
      variable whose version did not move kept its value. */
  ghost predicate Later(store: Store, store': Store) {
    && |store| <= |store'|
    && forall tv :: 0 <= tv < |store| ==>
         && store[tv].version <= store'[tv].version
         && (store[tv].version == store'[tv].version ==> store[tv].val == store'[tv].val)
  }

  lemma ThreadInvLater(store: Store, store': Store, th: Thread)
    requires ThreadInv(store, th) && Later(store, store')
    ensures ThreadInv(store', th)
  {
    if th.Running? {
      forall i | 0 <= i < |th.events| && th.events[i].Read?
        ensures ReadCovered(store', th, i)
      {
        assert ReadCovered(store, th, i);
        var e := th.events[i];
        if LatestWrite(Overlay(th.events[..i]), e.tv).None? {
          var j :| 0 <= j < |th.readLog| && Justifies(store, th.readLog[j], e.tv, e.seen);
          assert Justifies(store', th.readLog[j], e.tv, e.seen);
        }
      }
      forall i | 0 <= i < |th.events|
        ensures Follows(store', th, i)
      {
        assert Follows(store, th, i);
      }
    }
  }

  /** What one more event needs so that the invariant still holds. */
  lemma ThreadInvExtend(store: Store, th: Thread, th': Thread, e: Event)
    requires ThreadInv(store, th) && th.Running? && th'.Running?
    requires th'.body == th.body && th'.events == th.events + [e]
    requires LogInRange(store, th') && th'.writeLog == Overlay(th'.events)
    requires forall j :: 0 <= j < |th'.readLog| ==> th'.readLog[j].at <= store[th'.readLog[j].tv].version
    requires th.readLog <= th'.readLog
    requires Follows(store, th', |th.events|)
    requires e.Read? ==> ReadCovered(store, th', |th.events|)
    ensures ThreadInv(store, th')
  {
    forall i | 0 <= i < |th'.events|
      ensures Follows(store, th', i)
      ensures th'.events[i].Read? ==> ReadCovered(store, th', i)
    {
      if i < |th.events| {
        assert th'.events[..i] == th.events[..i];
        assert Follows(store, th, i);
        var e := th.events[i];
        if e.Read? {
          assert ReadCovered(store, th, i);
          if LatestWrite(Overlay(th.events[..i]), e.tv).None? {
            var j :| 0 <= j < |th.readLog| && Justifies(store, th.readLog[j], e.tv, e.seen);
            assert th'.readLog[j] == th.readLog[j];
          }
        }
      }
    }
  }

  lemma PublishIsLater(store: Store, writeLog: seq<WriteEntry>)
    requires WritesInRange(writeLog, |store|)
    ensures Later(store, Publish(store, writeLog))
  {
    forall tv | 0 <= tv < |store|
      ensures store[tv].version <= Publish(store, writeLog)[tv].version
      ensures store[tv].version == Publish(store, writeLog)[tv].version ==> store[tv].val == Publish(store, writeLog)[tv].val
    {
      PublishMeansLatest(store, writeLog, tv);
    }
  }

  lemma {:induction false} OverlayLast(events: seq<Event>, e: Event)
    ensures Overlay(events + [e]) == Buffer(Overlay(events), e)
  {
    assert (events + [e])[..|events + [e]| - 1] == events;
  }

  lemma OperatePreservesInv(s: State, t: nat, s': State)
    requires Inv(s) && Operate(s, t, s')
    ensures Inv(s')
  {
    assert ThreadInv(s.store, s.threads[t]);
    NextKeepsThread(s.store, s.threads[t]);
    hide ThreadInv, AfterNext;
    assert forall u :: 0 <= u < |s'.threads| && u != t ==> s'.threads[u] == s.threads[u];
  }

  /** An operation keeps its own thread's invariant. */
  lemma NextKeepsThread(store: Store, th: Thread)
    requires th.Running? && ThreadInv(store, th) && AfterNext(store, th).Some?
    ensures ThreadInv(store, AfterNext(store, th).value)
  {
    hide ThreadInv;
    match th.body(th.events)
    case DoRead(tv) => ReadKeepsThread(store, th, tv);
    case DoWrite(tv, v) => WriteKeepsThread(store, th, tv, v);
    case DoSave => SaveKeepsThread(store, th);
    case DoRollback(m) => RollbackKeepsThread(store, th, m);
    case DoCommit =>
  }

  /** The reads logged so far stay within the store's versions. */
  lemma KeepsJustified(store: Store, th: Thread, th': Thread)
    requires th.Running? && th'.Running? && ThreadInv(store, th)
    requires th'.readLog == th.readLog ||
             (|th'.readLog| == |th.readLog| + 1 && th'.readLog[..|th.readLog|] == th.readLog &&
              th'.readLog[|th.readLog|].tv < |store| && th'.readLog[|th.readLog|].at <= store[th'.readLog[|th.readLog|].tv].version)
    ensures th.readLog <= th'.readLog && ReadsInRange(th'.readLog, |store|)
    ensures forall j :: 0 <= j < |th'.readLog| ==> th'.readLog[j].at <= store[th'.readLog[j].tv].version
  {
    hide Overlay;
  }

  lemma WriteKeepsThread(store: Store, th: Thread, tv: nat, v: Value)
    requires th.Running? && ThreadInv(store, th) && th.body(th.events) == DoWrite(tv, v) && tv < |store|
    ensures ThreadInv(store, AfterWrite(th, tv, v))
  {
    var th' := AfterWrite(th, tv, v);
    var e := th'.events[|th.events|];
    assert th'.events == th.events + [e] && th'.events[..|th.events|] == th.events;
    OverlayLast(th.events, e);
    KeepsJustified(store, th, th');
    hide Overlay;
    ThreadInvExtend(store, th, th', e);
  }

  lemma SaveKeepsThread(store: Store, th: Thread)
    requires th.Running? && ThreadInv(store, th) && th.body(th.events) == DoSave
    ensures ThreadInv(store, AfterSave(th))
  {
    var th' := AfterSave(th);
    var e := th'.events[|th.events|];
    assert th'.events == th.events + [e] && th'.events[..|th.events|] == th.events;
    OverlayLast(th.events, e);
    KeepsJustified(store, th, th');
    hide Overlay;
    ThreadInvExtend(store, th, th', e);
  }

  lemma RollbackKeepsThread(store: Store, th: Thread, m: nat)
    requires th.Running? && ThreadInv(store, th) && th.body(th.events) == DoRollback(m) && m <= |th.writeLog|
    ensures ThreadInv(store, AfterRollback(th, m))
  {
    var th' := AfterRollback(th, m);
    var e := th'.events[|th.events|];
    assert th'.events == th.events + [e] && th'.events[..|th.events|] == th.events;
    OverlayLast(th.events, e);
    KeepsJustified(store, th, th');
    hide Overlay;
    ThreadInvExtend(store, th, th', e);
  }

  lemma ReadKeepsThread(store: Store, th: Thread, tv: nat)
    requires th.Running? && ThreadInv(store, th) && th.body(th.events) == DoRead(tv) && tv < |store|
    ensures ThreadInv(store, AfterRead(store, th, tv))
  {
    var th' := AfterRead(store, th, tv);
    var e := th'.events[|th.events|];
    assert th'.events == th.events + [e] && th'.events[..|th.events|] == th.events;
    OverlayLast(th.events, e);
    if LatestWrite(th.writeLog, tv).None? {
      assert Justifies(store, th'.readLog[|th.readLog|], tv, e.seen);
    }
    KeepsJustified(store, th, th');
    hide Overlay;
    ThreadInvExtend(store, th, th', e);
  }

  lemma CommitPreservesInv(s: State, t: nat, ok: bool, s': State)
    requires Inv(s) && Commit(s, t, ok, s')
    ensures Inv(s')
  {
    if ok {
      PublishIsLater(s.store, s.threads[t].writeLog);
    }
    forall u | 0 <= u < |s'.threads|
      ensures ThreadInv(s'.store, s'.threads[u])
    {
      if u != t {
        assert ThreadInv(s.store, s.threads[u]);
        ThreadInvLater(s.store, s'.store, s.threads[u]);
      }
    }
  }

  lemma NextPreservesInv(s: State, s': State)
    requires Inv(s) && Next(s, s')
    ensures Inv(s')
  {
    if v :| NewVar(s, v, s') {
      forall t | 0 <= t < |s'.threads|
        ensures ThreadInv(s'.store, s'.threads[t])
      {
        ThreadInvLater(s.store, s'.store, s.threads[t]);
      }
    } else if t: nat, body :| Begin(s, t, body, s') {
      assert forall u :: 0 <= u < |s'.threads| && u != t ==> s'.threads[u] == s.threads[u];
    } else if t: nat :| Abandon(s, t, s') {
      assert forall u :: 0 <= u < |s'.threads| && u != t ==> s'.threads[u] == s.threads[u];
    } else if t: nat :| Operate(s, t, s') {
      OperatePreservesInv(s, t, s');
    } else if t: nat, ok :| Commit(s, t, ok, s') {
      CommitPreservesInv(s, t, ok, s');
    }
  }

  // ---- a commit that succeeds is one atomic run ---------------------------

  /** The variable was written since, an exact multiple of 2^64 times: its stamp is back
      where it was. */
  predicate Lapped(store: Store, e: ReadEntry)
    requires e.tv < |store|
  {
    store[e.tv].version != e.at && Stamp(store[e.tv].version) == Stamp(e.at)
  }

  /** No variable the transaction read is lapped. */
  predicate NoWrap(store: Store, readLog: seq<ReadEntry>)
    requires ReadsInRange(readLog, |store|)
  {
    forall i :: 0 <= i < |readLog| ==> !Lapped(store, readLog[i])
  }

  predicate Current(store: Store, readLog: seq<ReadEntry>)
    requires ReadsInRange(readLog, |store|)
  {
    forall i :: 0 <= i < |readLog| ==> store[readLog[i].tv].version == readLog[i].at
  }

  /** Fewer than 2^64 writes lap nothing. */
  lemma FewWritesNeverLap(a: nat, b: nat)
    requires a <= b < a + WRAP
    ensures Stamp(a) == Stamp(b) <==> a == b
  {
    if Stamp(a) == Stamp(b) {
      var q, r := a / WRAP, b / WRAP;
      assert a == q * WRAP + a % WRAP && b == r * WRAP + b % WRAP;
      assert b - a == (r - q) * WRAP;
      assert r == q;
    }
  }

  /** Validation answers true exactly when nothing the transaction read has been
      written since it read it: a failed commit really lost a race. */
  lemma ValidationIsExact(store: Store, th: Thread)
    requires th.Running? && ThreadInv(store, th) && NoWrap(store, th.readLog)
    ensures Unchanged(store, th.readLog) <==> Current(store, th.readLog)
  {
    forall i | 0 <= i < |th.readLog|
      ensures Stamp(store[th.readLog[i].tv].version) == Stamp(th.readLog[i].at)
              <==> store[th.readLog[i].tv].version == th.readLog[i].at
    {
      assert !Lapped(store, th.readLog[i]);
    }
  }

  /** What is deceived, exactly: validation answers true of a log that is out of date if
      and only if every entry that is out of date is lapped. */
  lemma ValidationIsDeceived(store: Store, readLog: seq<ReadEntry>)
    requires ReadsInRange(readLog, |store|)
    ensures Unchanged(store, readLog) && !Current(store, readLog) <==>
              && (exists i :: 0 <= i < |readLog| && Lapped(store, readLog[i]))
              && (forall i :: 0 <= i < |readLog| ==> Lapped(store, readLog[i]) || store[readLog[i].tv].version == readLog[i].at)
  {
    if Unchanged(store, readLog) && !Current(store, readLog) {
      var i :| 0 <= i < |readLog| && store[readLog[i].tv].version != readLog[i].at;
      assert Lapped(store, readLog[i]);
    }
  }

  lemma {:induction false} CurrentMeansAtomic(store: Store, th: Thread, n: nat)
    requires th.Running? && ThreadInv(store, th) && Current(store, th.readLog)
    requires n <= |th.events|
    ensures AtomicRun(th.body, Vals(store), th.events[..n])
  {
    if n > 0 {
      CurrentMeansAtomic(store, th, n - 1);
      assert th.events[..n][..n - 1] == th.events[..n - 1];
      assert Follows(store, th, n - 1);
      var e := th.events[n - 1];
      if e.Read? {
        assert ReadCovered(store, th, n - 1);
        if LatestWrite(Overlay(th.events[..n - 1]), e.tv).None? {
          var j :| 0 <= j < |th.readLog| && Justifies(store, th.readLog[j], e.tv, e.seen);
        }
      }
    }
  }

  /** A commit answering true is one atomic run of its transaction on the store
      at commit time: run alone there, with no other thread between its steps,
      the body sees the very same values, asks to commit at the same point, and
      leaves the very store the commit left.  A commit answering false changes
      neither a value nor a version. */
  lemma CommitIsAtomic(s: State, t: nat, ok: bool, s': State)
    requires Inv(s) && Commit(s, t, ok, s')
    requires NoWrap(s.store, s.threads[t].readLog)
    ensures ok ==>
              && AtomicRun(s.threads[t].body, Vals(s.store), s.threads[t].events)
              && Vals(s'.store) == Apply(Vals(s.store), Overlay(s.threads[t].events))
    ensures ok <==> Current(s.store, s.threads[t].readLog)
    ensures !ok ==> s'.store == s.store
  {
    var th := s.threads[t];
    assert ThreadInv(s.store, th);
    ValidationIsExact(s.store, th);
    if ok {
      CurrentMeansAtomic(s.store, th, |th.events|);
      assert th.events[..|th.events|] == th.events;
      PublishIsApply(s.store, th.writeLog);
    }
  }

  // ---- whole runs ---------------------------------------------------------

  /** The store values a history of creations and whole transactions leaves, each
      transaction applied at once. */
  function Replay(history: seq<Change>): seq<Value> {
    if |history| == 0 then []
    else
      var before := Replay(history[..|history| - 1]);
      match history[|history| - 1]
      case Created(v) => before + [v]
      case Committed(_, events) => Apply(before, Overlay(events))
  }

  /** Each committed transaction of `history` is a run of its body alone on the
      store the changes before it left, stopping where the body asks to commit. */
  ghost predicate Serial(history: seq<Change>) {
    |history| > 0 ==>
      var before := history[..|history| - 1];
      Serial(before) &&
      match history[|history| - 1]
      case Created(_) => true
      case Committed(body, events) => body(events) == DoCommit && AtomicRun(body, Replay(before), events)
  }

  ghost predicate IsRun(states: seq<State>) {
    && |states| > 0
    && Init(states[0])
    && forall i :: 0 <= i < |states| - 1 ==> Next(states[i], states[i + 1])
  }

  ghost predicate NeverWraps(s: State) {
    forall t :: 0 <= t < |s.threads| && s.threads[t].Running? && LogInRange(s.store, s.threads[t])
      ==> NoWrap(s.store, s.threads[t].readLog)
  }

  lemma ExtendHistory(history: seq<Change>, c: Change)
    ensures (history + [c])[..|history + [c]| - 1] == history
  {
  }

  /** The store is what replaying the history leaves, and the history is serial. */
  ghost predicate Consistent(s: State) {
    Inv(s) && Serial(s.history) && Vals(s.store) == Replay(s.history)
  }

  lemma CommitStaysConsistent(s: State, t: nat, ok: bool, s': State)
    requires Consistent(s) && NeverWraps(s) && Commit(s, t, ok, s')
    ensures Consistent(s')
  {
    CommitPreservesInv(s, t, ok, s');
    CommitIsAtomic(s, t, ok, s');
    if ok {
      ExtendHistory(s.history, Committed(s.threads[t].body, s.threads[t].events));
    }
  }

  lemma NextStaysConsistent(s: State, s': State)
    requires Consistent(s) && NeverWraps(s) && Next(s, s')
    ensures Consistent(s')
  {
    NextPreservesInv(s, s');
    if v :| NewVar(s, v, s') {
      ExtendHistory(s.history, Created(v));
    } else if t: nat, ok :| Commit(s, t, ok, s') {
      CommitStaysConsistent(s, t, ok, s');
    }
  }

  /** Serializability: in any interleaving, the committed transactions are
      serial in commit order, and replaying them one after the other from the
      empty store leaves exactly the store of the interleaved run. */
  lemma {:induction false} RunsAreSerializable(states: seq<State>)
    requires IsRun(states)
    requires forall i :: 0 <= i < |states| ==> NeverWraps(states[i])
    ensures Consistent(states[|states| - 1])
  {
    hide Inv, Serial, Replay, Next, NeverWraps;
    var n := |states| - 1;
    if n > 0 {
      RunsAreSerializable(states[..n]);
      assert Next(states[n - 1], states[n - 1 + 1]);
      NextStaysConsistent(states[n - 1], states[n]);
    } else {
      InitIsConsistent(states[0]);
    }
  }

  lemma InitIsConsistent(s: State)
    requires Init(s)
    ensures Consistent(s)
  {
  }

  // ---- the bound is needed ------------------------------------------------

  function Repeat(tv: nat, v: Value, n: nat): seq<WriteEntry> {
    if n == 0 then [] else Repeat(tv, v, n - 1) + [WriteEntry(tv, v)]
  }

  lemma {:induction false} RepeatWrites(tv: nat, v: Value, n: nat)
    ensures WritesInRange(Repeat(tv, v, n), tv + 1)
    ensures WriteCount(Repeat(tv, v, n), tv) == n
    ensures n > 0 ==> LatestWrite(Repeat(tv, v, n), tv) == Some(v)
  {
    if n > 0 {
      RepeatWrites(tv, v, n - 1);
      assert Repeat(tv, v, n)[..|Repeat(tv, v, n)| - 1] == Repeat(tv, v, n - 1);
    }
  }

  /** 2^64 writes to a variable between a read and its commit lap it: the commit then
      answers true although the value it read is gone. */
  lemma WrapBreaksValidation() returns (store: Store, readLog: seq<ReadEntry>, writeLog: seq<WriteEntry>)
    ensures |store| == 1 && ReadsInRange(readLog, 1) && WritesInRange(writeLog, 1)
    ensures Current(store, readLog) && store[0].val == 0
    ensures Unchanged(Publish(store, writeLog), readLog)
    ensures !Current(Publish(store, writeLog), readLog)
    ensures Publish(store, writeLog)[0].val == 1
  {
    store, readLog, writeLog := [TVar(0, 0)], [ReadEntry(0, 0)], Repeat(0, 1, WRAP);
    RepeatWrites(0, 1, WRAP);
    PublishMeansLatest(store, writeLog, 0);
    assert Publish(store, writeLog)[0].version == WRAP;
    assert store[readLog[0].tv].version == 0 && Publish(store, writeLog)[readLog[0].tv].version != readLog[0].at;
  }

  // ---- the log as the runtime keeps it ------------------------------------

  /** The store every thread shares. */
  class TVars {
    var cells: seq<TVar>

    constructor ()
      ensures cells == []
    {
      cells := [];
    }

    method New(v: Value) returns (tv: nat)
      modifies this
      ensures tv == |old(cells)| && cells == old(cells) + [TVar(v, 0)]
    {
      tv := |cells|;
      cells := cells + [TVar(v, 0)];
    }
  }

  /** One thread's transaction log. */
  class Log {
    var readLog: seq<ReadEntry>
    var writeLog: seq<WriteEntry>
    const store: TVars

    constructor (store: TVars)
      ensures this.store == store && readLog == [] && writeLog == []
    {
      this.store := store;
      readLog, writeLog := [], [];
    }

    ghost predicate Valid()
      reads this, store
    {
      ReadsInRange(readLog, |store.cells|) && WritesInRange(writeLog, |store.cells|)
    }

    /** The log as the interleaved machine sees it. */
    ghost function AsThread(body: Body, events: seq<Event>): Thread
      reads this
    {
      Running(body, events, readLog, writeLog)
    }

    method TruncateWrites(n: nat)
      requires n <= |writeLog|
      modifies this`writeLog
      ensures writeLog == old(writeLog)[..n]
    {
      while |writeLog| > n
        invariant n <= |writeLog| && writeLog == old(writeLog)[..|writeLog|]
      {
        writeLog := writeLog[..|writeLog| - 1];
      }
    }

    method Clear()
      modifies this
      ensures readLog == [] && writeLog == []
    {
      TruncateWrites(0);
      while |readLog| > 0
        invariant writeLog == []
      {
        readLog := readLog[..|readLog| - 1];
      }
    }

    /** The transaction's own latest write, found by walking its log backwards, or
        else the committed value, whose version is logged. */
    method Read(tv: nat, ghost body: Body, ghost events: seq<Event>) returns (v: Value)
      requires Valid() && tv < |store.cells|
      modifies this`readLog
      ensures Valid()
      ensures AsThread(body, events + [Event.Read(tv, v)]) == AfterRead(store.cells, old(AsThread(body, events)), tv)
    {
      var i := |writeLog|;
      assert writeLog[..i] == writeLog;
      while i > 0
        invariant 0 <= i <= |writeLog|
        invariant LatestWrite(writeLog, tv) == LatestWrite(writeLog[..i], tv)
      {
        assert writeLog[..i][..i - 1] == writeLog[..i - 1];
        if writeLog[i - 1].tv == tv {
          return writeLog[i - 1].val;
        }
        i := i - 1;
      }
      v := store.cells[tv].val;
      readLog := readLog + [ReadEntry(tv, store.cells[tv].version)];
    }

    method Write(tv: nat, v: Value, ghost body: Body, ghost events: seq<Event>)
      requires Valid() && tv < |store.cells|
      modifies this`writeLog
      ensures Valid()
      ensures AsThread(body, events + [Event.Write(tv, v)]) == AfterWrite(old(AsThread(body, events)), tv, v)
    {
      writeLog := writeLog + [WriteEntry(tv, v)];
    }

    method Save(ghost body: Body, ghost events: seq<Event>) returns (mark: nat)
      ensures AsThread(body, events + [Event.Save(mark)]) == AfterSave(AsThread(body, events))
    {
      mark := |writeLog|;
    }

    /** Undo the writes made since `mark`.  A mark that is negative or past the end
        of the log is a fault, reported as `false`. */
    method Rollback(mark: int, ghost body: Body, ghost events: seq<Event>) returns (ok: bool)
      requires Valid()
      modifies this`writeLog
      ensures Valid()
      ensures ok <==> 0 <= mark <= |old(writeLog)|
      ensures ok ==> AsThread(body, events + [Event.Rollback(mark)]) == AfterRollback(old(AsThread(body, events)), mark)
      ensures !ok ==> writeLog == old(writeLog)
    {
      if mark < 0 || mark > |writeLog| {
        return false;
      }
      TruncateWrites(mark);
      ok := true;
    }

    method ReadsUnchanged() returns (ok: bool)
      requires Valid()
      ensures ok == Unchanged(store.cells, readLog)
    {
      for i := 0 to |readLog|
        invariant forall j :: 0 <= j < i ==> Stamp(store.cells[readLog[j].tv].version) == Stamp(readLog[j].at)
      {
        if Stamp(store.cells[readLog[i].tv].version) != Stamp(readLog[i].at) {
          return false;
        }
      }
      ok := true;
    }

    /** Validate, publish the writes in order, and empty the log: the store and
        the answer are those of the machine's `Commit`. */
    method Commit() returns (ok: bool)
      requires Valid()
      modifies this, store
      ensures ok == Unchanged(old(store.cells), old(readLog))
      ensures store.cells == if ok then Publish(old(store.cells), old(writeLog)) else old(store.cells)
      ensures readLog == [] && writeLog == []
    {
      ok := ReadsUnchanged();
      if ok {
        for i := 0 to |writeLog|
          invariant readLog == old(readLog) && writeLog == old(writeLog)
          invariant WritesInRange(writeLog, |old(store.cells)|)
          invariant store.cells == Publish(old(store.cells), writeLog[..i])
        {
          var w := writeLog[i];
          assert writeLog[..i + 1][..i] == writeLog[..i];
          store.cells := store.cells[w.tv := TVar(w.val, store.cells[w.tv].version + 1)];
        }
        assert writeLog[..|writeLog|] == writeLog;
      }
      Clear();
    }
  }
}
