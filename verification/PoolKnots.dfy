/** A pool that is stuck: exactly when threads waiting for tasks form a knot, each
    waiting for a task that lies under the wait of one of them.  Tasks that wait only
    for tasks spawned before them can form one, but only by helping. */
module PoolKnots {
  import opened Common
  import opened Pool
  import opened PoolSafety
  import opened PoolWaking

  // ---- knots --------------------------------------------------------------

  /** The wait of thread `i` is `waits[i]` levels up its stack. */
  predicate Waits(p: State, waits: map<nat, nat>, i: nat) {
    && i in waits && i < |p.threads| && waits[i] < |p.threads[i]|
    && p.threads[i][waits[i]].Seek? && p.threads[i][waits[i]].goal.ForTask?
  }

  function Awaited(p: State, waits: map<nat, nat>, i: nat): nat
    requires Waits(p, waits, i)
  {
    p.threads[i][waits[i]].goal.task
  }

  /** Task `t` runs on thread `j`, `k` levels up, under the wait of that thread. */
  predicate RunsUnder(p: State, waits: map<nat, nat>, t: nat, j: nat, k: nat) {
    j in waits && j < |p.threads| && k < waits[j] < |p.threads[j]| && p.threads[j][k] == Exec(t)
  }

  ghost predicate Tied(p: State, waits: map<nat, nat>, i: nat) {
    Waits(p, waits, i) && exists j: nat, k: nat :: RunsUnder(p, waits, Awaited(p, waits, i), j, k)
  }

  /** Threads that each wait for a task under the wait of one of them. */
  ghost predicate Knotted(p: State, waits: map<nat, nat>) {
    (exists i: nat :: i in waits) && forall i: nat :: i in waits ==> Tied(p, waits, i)
  }

  /** A task under its own waiter is a knot of one thread. */
  lemma BuriedIsKnot(p: State, i: nat, k: nat, l: nat, t: nat)
    requires Buried(p, i, k, l, t)
    ensures Knotted(p, map[i := l])
  {
    var waits := map[i := l];
    assert i in waits && Waits(p, waits, i) && Awaited(p, waits, i) == t;
    assert RunsUnder(p, waits, t, i, k);
  }

  lemma TiedIn(p: State, waits: map<nat, nat>, i: nat)
    requires Knotted(p, waits) && i in waits
    ensures Tied(p, waits, i)
  {
  }

  /** No step of any thread loosens a knot. */
  lemma KnotStays(p: State, waits: map<nat, nat>, a: nat, e: Event)
    requires Shape(p) && RunsOnce(p) && Knotted(p, waits) && Step(p, a, e).Some?
    ensures Knotted(Step(p, a, e).value, waits)
  {
    hide Step, Shape, RunsOnce, Tied;
    forall i: nat | i in waits
      ensures Tied(Step(p, a, e).value, waits, i)
    {
      TiedStays(p, waits, i, a, e);
    }
  }

  lemma TiedStays(p: State, waits: map<nat, nat>, i: nat, a: nat, e: Event)
    requires Shape(p) && RunsOnce(p) && Knotted(p, waits) && i in waits && Step(p, a, e).Some?
    ensures Tied(Step(p, a, e).value, waits, i)
  {
    TiedIn(p, waits, i);
    hide Step, Shape, RunsOnce, Knotted;
    WaitStays(p, waits, i, a, e);
    var j: nat, k: nat :| RunsUnder(p, waits, Awaited(p, waits, i), j, k);
    TiedIn(p, waits, j);
    WaitStays(p, waits, j, a, e);
    UnderStays(p, waits, Awaited(p, waits, i), j, k, a, e);
  }

  lemma WaitStays(p: State, waits: map<nat, nat>, i: nat, a: nat, e: Event)
    requires Shape(p) && RunsOnce(p) && Tied(p, waits, i) && Step(p, a, e).Some?
    ensures var p' := Step(p, a, e).value; Waits(p', waits, i) && Awaited(p', waits, i) == Awaited(p, waits, i)
  {
    hide Effect, Shape, RunsOnce, StackOk;
    var j: nat, k: nat :| RunsUnder(p, waits, Awaited(p, waits, i), j, k);
    TopRuns(p, j, k);
    var c := Effect(p, a, Top(p.threads[a]), e).value;
    if a == i && waits[i] == |p.threads[i]| - 1 {
      KeepsWaiting(p, i, p.threads[i][waits[i]].goal, p.threads[i][waits[i]].phase, e);
    }
    RousedKeeps(Put(p, a, c.now)[i], waits[i]);
  }

  lemma UnderStays(p: State, waits: map<nat, nat>, t: nat, j: nat, k: nat, a: nat, e: Event)
    requires RunsUnder(p, waits, t, j, k) && Step(p, a, e).Some? && Waits(Step(p, a, e).value, waits, j)
    ensures RunsUnder(Step(p, a, e).value, waits, t, j, k)
  {
    hide Effect;
    var c := Effect(p, a, Top(p.threads[a]), e).value;
    RousedKeeps(Put(p, a, c.now)[j], k);
  }

  lemma TiedRuns(p: State, waits: map<nat, nat>, i: nat)
    requires RunsOnce(p) && Tied(p, waits, i)
    ensures IsRunning(p, Awaited(p, waits, i)) == 1
  {
    hide RunsOnce, IsRunning;
    var j: nat, k: nat :| RunsUnder(p, waits, Awaited(p, waits, i), j, k);
    TopRuns(p, j, k);
  }

  /** A knot is for ever: however the run goes on, no task it waits for finishes. */
  lemma {:induction false} KnottedForever(p: State, waits: map<nat, nat>, schedule: seq<(nat, Event)>, i: nat)
    requires Inv(p) && Knotted(p, waits) && Run(p, schedule).Some? && i in waits
    ensures var q := Run(p, schedule).value;
            Knotted(q, waits) && Waits(q, waits, i) && IsRunning(q, Awaited(q, waits, i)) == 1
    decreases |schedule|
  {
    hide Step, Shape, Accounted, NoneLost, IoCounted, Exclusive, NoLostWakeup, IsRunning, RunsOnce, Knotted;
    if |schedule| == 0 {
      TiedIn(p, waits, i);
      TiedRuns(p, waits, i);
    } else {
      var (a, e) := schedule[0];
      hide Tied, Waits;
      KnotStays(p, waits, a, e);
      StepInv(p, a, e);
      KnottedForever(Step(p, a, e).value, waits, schedule[1..], i);
    }
  }

  // ---- a stuck pool is knotted --------------------------------------------

  /** What only ever is at the bottom of a stack. */
  predicate Ground(a: Act) {
    a.Main? || (a.Seek? && (a.goal.Work? || a.goal.ForAll?)) || (a.Wake? && a.last)
  }

  ghost predicate Grounded(p: State) {
    forall i, k :: 0 <= i < |p.threads| && 0 < k < |p.threads[i]| ==> !Ground(p.threads[i][k])
  }

  lemma EffectGround(p: State, i: nat, top: Act, e: Event)
    requires Effect(p, i, top, e).Some?
    ensures var now := Effect(p, i, top, e).value.now;
            |now| <= 2 && (|now| > 0 && Ground(now[0]) ==> Ground(top)) && (|now| > 1 ==> !Ground(now[1]))
  {
    hide TakeSource, Room;
  }

  lemma StepGrounded(p: State, i: nat, e: Event)
    requires Grounded(p) && Step(p, i, e).Some?
    ensures Grounded(Step(p, i, e).value)
  {
    hide Effect, Ground;
    var c := Effect(p, i, Top(p.threads[i]), e).value;
    var p', n := Step(p, i, e).value, |p.threads[i]| - 1;
    EffectGround(p, i, Top(p.threads[i]), e);
    forall j, k | 0 <= j < |p'.threads| && 0 < k < |p'.threads[j]|
      ensures !Ground(p'.threads[j][k])
    {
      var s := Put(p, i, c.now)[j];
      RousedGround(s, k);
      if j == i && k >= n {
        assert s[k] == c.now[k - n];
        assert k == n ==> !Ground(p.threads[i][n]);
      } else {
        assert s[k] == p.threads[j][k];
      }
    }
  }

  lemma RousedGround(s: seq<Act>, k: nat)
    requires k < |s|
    ensures Ground(Roused(s)[k]) == Ground(s[k])
  {
  }

  lemma {:induction false} RunGrounded(p: State, schedule: seq<(nat, Event)>)
    requires Grounded(p) && Run(p, schedule).Some?
    ensures Grounded(Run(p, schedule).value)
    decreases |schedule|
  {
    hide Step, Grounded;
    if |schedule| > 0 {
      StepGrounded(p, schedule[0].0, schedule[0].1);
      RunGrounded(Step(p, schedule[0].0, schedule[0].1).value, schedule[1..]);
    }
  }

  lemma {:induction false} SumFinds(threads: seq<seq<Act>>, m: Meter) returns (i: nat, k: nat)
    requires Sum(threads, m) > 0
    ensures i < |threads| && k < |threads[i]| && Weight(m, threads[i][k]) > 0
  {
    hide Weight;
    var n := |threads| - 1;
    if SumOf(threads[n], m) > 0 {
      i := n;
      k := SumOfFinds(threads[n], m);
    } else {
      i, k := SumFinds(threads[..n], m);
    }
  }

  lemma {:induction false} SumOfFinds(s: seq<Act>, m: Meter) returns (k: nat)
    requires SumOf(s, m) > 0
    ensures k < |s| && Weight(m, s[k]) > 0
  {
    hide Weight;
    var n := |s| - 1;
    if Weight(m, s[n]) > 0 {
      k := n;
    } else {
      k := SumOfFinds(s[..n], m);
    }
  }

  /** Thread `i` waits, at the top of its stack, for a task. */
  predicate TopWaits(p: State, i: nat) {
    i < |p.threads| && |p.threads[i]| > 0 && Top(p.threads[i]).Seek? && Top(p.threads[i]).goal.ForTask?
  }

  ghost predicate NoMail(p: State) {
    forall i: nat :: i < |p.threads| && |p.threads[i]| > 0 ==> !(Top(p.threads[i]).Seek? && Top(p.threads[i]).goal.ForMail?)
  }

  ghost function TopWaiters(p: State): map<nat, nat> {
    map i: nat | i < |p.threads| && TopWaits(p, i) :: |p.threads[i]| - 1
  }

  /** When every thread sleeps, none of them for a message, and one for a task, those
      that wait for a task form a knot. */
  lemma StuckIsKnotted(p: State, i: nat)
    requires Inv(p) && Grounded(p) && AllAsleep(p) && NoMail(p) && TopWaits(p, i)
    ensures Knotted(p, TopWaiters(p))
  {
    hide Inv, Grounded, AllAsleep, NoMail;
    var waits := TopWaiters(p);
    assert i in waits;
    forall j: nat | j in waits
      ensures Tied(p, waits, j)
    {
      WaiterTied(p, j);
    }
  }

  lemma WaiterTied(p: State, i: nat)
    requires Inv(p) && Grounded(p) && AllAsleep(p) && NoMail(p) && TopWaits(p, i)
    ensures Tied(p, TopWaiters(p), i)
  {
    var waits, t := TopWaiters(p), Top(p.threads[i]).goal.task;
    AwaitedRuns(p, i);
    hide Inv, Sum;
    var j, k := SumFinds(p.threads, OfExec(t));
    assert p.threads[j][k] == Exec(t);
    var top := Top(p.threads[j]);
    assert top.Seek? && k < |p.threads[j]| - 1;
    assert !Ground(p.threads[j][|p.threads[j]| - 1]);
    assert TopWaits(p, j);
    assert Waits(p, waits, i) && Awaited(p, waits, i) == t;
    assert RunsUnder(p, waits, t, j, k);
  }

  /** A task waited for in a sleeping pool is running somewhere. */
  lemma AwaitedRuns(p: State, i: nat)
    requires Inv(p) && AllAsleep(p) && TopWaits(p, i)
    ensures Sum(p.threads, OfExec(Top(p.threads[i]).goal.task)) > 0
  {
    hide Accounted, NoneLost, IoCounted, Exclusive, NoLostWakeup, Sum, AllAsleep;
    var t := Top(p.threads[i]).goal.task;
    AsleepMeansIdle(p, i, t);
    assert StackOk(p, p.threads[i]);
    assert ActOk(p, Top(p.threads[i]));
    assert Sum(p.threads, OfExec(t)) == IsRunning(p, t);
  }

  /** A knot and a pool that is stuck: from a state a run of the pool comes to, in which
      every thread sleeps and none for a message, a task somebody waits for never
      finishes if there is a knot, and there is one if somebody waits. */
  lemma StuckExactly(workers: nat, chans: nat, schedule: seq<(nat, Event)>)
    requires Run(Init(workers, chans), schedule).Some?
    ensures var p := Run(Init(workers, chans), schedule).value;
            AllAsleep(p) && NoMail(p) ==> ((exists i: nat :: TopWaits(p, i)) <==> exists waits :: Knotted(p, waits))
  {
    hide Step, Run, AllAsleep, NoMail, Knotted, Inv, Grounded;
    InitInv(workers, chans);
    RunInv(Init(workers, chans), schedule);
    assert Grounded(Init(workers, chans)) by {
      InitGrounded(workers, chans);
    }
    RunGrounded(Init(workers, chans), schedule);
    var p := Run(Init(workers, chans), schedule).value;
    if AllAsleep(p) && NoMail(p) {
      if i: nat :| TopWaits(p, i) {
        StuckIsKnotted(p, i);
      }
      if waits :| Knotted(p, waits) {
        KnotAsleep(p, waits);
      }
    }
  }

  lemma InitGrounded(workers: nat, chans: nat)
    ensures Grounded(Init(workers, chans))
  {
  }

  /** In a sleeping pool a knotted thread waits for a task at the top of its stack. */
  lemma KnotAsleep(p: State, waits: map<nat, nat>)
    requires Inv(p) && Grounded(p) && AllAsleep(p) && NoMail(p) && Knotted(p, waits)
    ensures exists i: nat :: TopWaits(p, i)
  {
    hide Inv;
    var i: nat :| i in waits;
    assert Tied(p, waits, i);
    var j: nat, k: nat :| RunsUnder(p, waits, Awaited(p, waits, i), j, k);
    assert !Ground(p.threads[j][|p.threads[j]| - 1]);
    assert TopWaits(p, j);
  }

  // ---- waiting downward ---------------------------------------------------

  /** A task that waits waits for one spawned before it. */
  predicate Lower(below: Act, above: Act) {
    below.Exec? && above.Seek? && above.goal.ForTask? ==> above.goal.task < below.task
  }

  ghost predicate Descends(p: State) {
    forall i, k :: 0 <= i < |p.threads| && 0 <= k < |p.threads[i]| - 1 ==> Lower(p.threads[i][k], p.threads[i][k + 1])
  }

  lemma EffectLower(p: State, i: nat, top: Act, e: Event, under: Act)
    requires Effect(p, i, top, e).Some? && Lower(under, top)
    requires e.Await? && top.Exec? ==> e.task < top.task
    ensures var now := Effect(p, i, top, e).value.now;
            |now| <= 2 && (|now| > 0 ==> Lower(under, now[0])) && (|now| > 1 ==> Lower(now[0], now[1]))
  {
    hide TakeSource, Room;
  }

  lemma StepDescends(p: State, i: nat, e: Event)
    requires Descends(p) && Step(p, i, e).Some?
    requires e.Await? && Top(p.threads[i]).Exec? ==> e.task < Top(p.threads[i]).task
    ensures Descends(Step(p, i, e).value)
  {
    hide Effect, Lower;
    var c := Effect(p, i, Top(p.threads[i]), e).value;
    var p', n := Step(p, i, e).value, |p.threads[i]| - 1;
    var under := if n > 0 then p.threads[i][n - 1] else Main;
    assert Lower(under, Top(p.threads[i])) by {
      MainIsLow(Top(p.threads[i]));
    }
    EffectLower(p, i, Top(p.threads[i]), e, under);
    forall j, k | 0 <= j < |p'.threads| && 0 <= k < |p'.threads[j]| - 1
      ensures Lower(p'.threads[j][k], p'.threads[j][k + 1])
    {
      var s := Put(p, i, c.now)[j];
      RousedLower(s, k);
      if j == i && k >= n {
        assert s[k] == c.now[k - n] && s[k + 1] == c.now[k + 1 - n];
      } else if j == i && k == n - 1 {
        assert s[k] == under && s[k + 1] == c.now[0];
      } else {
        assert s[k] == p.threads[j][k] && s[k + 1] == p.threads[j][k + 1];
      }
    }
  }

  lemma MainIsLow(a: Act)
    ensures Lower(Main, a)
  {
  }

  lemma RousedLower(s: seq<Act>, k: nat)
    requires k + 1 < |s|
    ensures Lower(Roused(s)[k], Roused(s)[k + 1]) == Lower(s[k], s[k + 1])
  {
  }

  lemma {:induction false} RunDescends(p: State, schedule: seq<(nat, Event)>)
    requires Descends(p) && Downward(p, schedule) && Run(p, schedule).Some?
    ensures Descends(Run(p, schedule).value)
    decreases |schedule|
  {
    hide Step, Descends;
    if |schedule| > 0 {
      StepDescends(p, schedule[0].0, schedule[0].1);
      RunDescends(Step(p, schedule[0].0, schedule[0].1).value, schedule[1..]);
    }
  }

  /** The thread of a knot that waits for the least task. */
  lemma {:induction false} LeastWait(p: State, waits: map<nat, nat>, among: set<nat>) returns (i: nat)
    requires among != {} && forall a: nat :: a in among ==> Waits(p, waits, a)
    ensures i in among && forall a: nat :: a in among ==> Awaited(p, waits, i) <= Awaited(p, waits, a)
    decreases |among|
  {
    hide Waits, Awaited;
    var a :| a in among;
    i := a;
    if among != {a} {
      var b := LeastWait(p, waits, among - {a});
      if Awaited(p, waits, b) <= Awaited(p, waits, a) {
        i := b;
      }
    }
  }

  /** Tasks that wait downward are knotted only where a thread helps: some task a knot
      waits for lies under another its thread runs while it waits. */
  lemma KnotsNeedHelping(p: State, waits: map<nat, nat>) returns (i: nat, j: nat, k: nat)
    requires Descends(p) && Knotted(p, waits)
    ensures i in waits && Waits(p, waits, i) && RunsUnder(p, waits, Awaited(p, waits, i), j, k) && k + 1 < waits[j]
  {
    forall a: nat | a in waits
      ensures Waits(p, waits, a)
    {
      TiedIn(p, waits, a);
    }
    TiedIn(p, waits, SomeWaiter(p, waits));
    hide Descends, Knotted, Waits, Awaited, RunsUnder;
    i := LeastWait(p, waits, waits.Keys);
    TiedIn(p, waits, i);
    j, k :| RunsUnder(p, waits, Awaited(p, waits, i), j, k);
    UnderNotNext(p, waits, i, j, k);
  }

  ghost function SomeWaiter(p: State, waits: map<nat, nat>): (i: nat)
    requires Knotted(p, waits)
    ensures i in waits
  {
    var i: nat :| i in waits;
    i
  }

  /** What waits for the least task is not what the task lies directly under. */
  lemma UnderNotNext(p: State, waits: map<nat, nat>, i: nat, j: nat, k: nat)
    requires Descends(p) && Waits(p, waits, i) && RunsUnder(p, waits, Awaited(p, waits, i), j, k) && Waits(p, waits, j)
    requires Awaited(p, waits, i) <= Awaited(p, waits, j)
    ensures k + 1 < waits[j]
  {
    assert Lower(p.threads[j][k], p.threads[j][k + 1]);
  }

  // ---- a knot across threads ----------------------------------------------

  ghost predicate NoneBuried(p: State) {
    forall i: nat, k: nat, l: nat, t: nat :: !Buried(p, i, k, l, t)
  }

  /** The worker's task returns: it is done, and the sleepers are woken. */
  lemma ReturnLeads(p: State, a: seq<Act>, t: nat, r: State)
    requires p.threads == [a, [Seek(Work, Begin), Exec(t)]] && t < |p.tasks| && !p.tasks[t].io && p.lock.None? && Awake(a)
    requires Leads(p.(threads := [a, [Seek(Work, Begin)]], tasks := p.tasks[t := p.tasks[t].(state := Done)]), r)
    ensures Leads(p, r)
  {
    hide Leads;
    var low, w := [Seek(Work, Begin)], Seek(Work, Begin);
    var done := p.tasks[t := p.tasks[t].(state := Done)];
    var p1 := p.(threads := [a, [w, Finished(t)]], tasks := done);
    var p2 := p1.(threads := [a, [w, Wake(false, WantLock)]]);
    var p3 := p2.(threads := [a, [w, Wake(false, Locked)]], lock := Some(1));
    var p4 := p3.(threads := [a, [w, Wake(false, Unlock)]]);
    var p5 := p1.(threads := [a, low]);
    assert p5 == p.(threads := [a, [Seek(Work, Begin)]], tasks := done);
    assert low + [Wake(false, Unlock)] == [w, Wake(false, Unlock)] && low + [] == low && low + [Finished(t)] == [w, Finished(t)];
    assert low + [Wake(false, WantLock)] == [w, Wake(false, WantLock)] && low + [Wake(false, Locked)] == [w, Wake(false, Locked)];
    assert low + [Exec(t)] == [w, Exec(t)];
    Go(p4, 1, low, Wake(false, Unlock), a, Move, Change(p4.(lock := None), [], false), p5, r);
    LoudOne(p3, p4, a, r);
    Go(p2, 1, low, Wake(false, WantLock), a, Move, Change(p2.(lock := Some(1)), [Wake(false, Locked)], false), p3, r);
    assert p1.ioPending - B(p1.tasks[t].io) == p1.ioPending;
    Go(p1, 1, low, Finished(t), a, Move, Change(p1, [Wake(false, WantLock)], false), p2, r);
    Go(p, 1, low, Exec(t), a, Return, Change(p.(tasks := done), [Finished(t)], false), p1, r);
  }

  lemma LoudOne(p: State, q: State, a: seq<Act>, r: State)
    requires p.threads == [a, [Seek(Work, Begin), Wake(false, Locked)]] && Awake(a)
    requires q == p.(threads := [a, [Seek(Work, Begin), Wake(false, Unlock)]])
    requires Leads(q, r)
    ensures Leads(p, r)
  {
    hide Leads;
    assert [Seek(Work, Begin), Wake(false, Locked)][..1] + [Wake(false, Unlock)] == [Seek(Work, Begin), Wake(false, Unlock)];
    assert Put(p, 1, [Wake(false, Unlock)]) == q.threads;
    assert Broadcast(q.threads) == q.threads;
    assert p.(stop := p.stop || false) == p;
    assert Step(p, 1, Move) == Some(q);
    LeadsOn(p, 1, Move, q, r);
  }

  /** The worker takes the entry of a task that was started in place, and goes on. */
  lemma StaleLeads(p: State, a: seq<Act>, t: nat, more: seq<nat>, r: State)
    requires p.threads == [a, [Seek(Work, Begin)]] && p.deques == [[t] + more, []] && t < |p.tasks| && !p.tasks[t].state.Pending?
    requires Leads(p.(deques := [more, []], queued := p.queued - 1), r)
    ensures Leads(p, r)
  {
    hide Leads, BeginStep, LookStep, UserStep, LockStep;
    var none: seq<Act> := [];
    var w4 := p.(threads := [a, [Seek(Work, Ready(t))]], deques := [more, []], queued := p.queued - 1);
    var w5 := p.(deques := [more, []], queued := p.queued - 1);
    assert none + [Seek(Work, Ready(t))] == [Seek(Work, Ready(t))] && none + [Seek(Work, Begin)] == [Seek(Work, Begin)];
    Go(w4, 1, none, Seek(Work, Ready(t)), a, Move, Change(w4, [Seek(Work, Begin)], false), w5, r);
    StealLeads(p, a, t, more, r);
  }

  /** Task `t` of thread `i` awaits one spawned before it. */
  lemma WaitLeads(p: State, i: nat, rest: seq<Act>, other: seq<Act>, t: nat, u: nat, r: State)
    requires i < 2 && p.threads == (if i == 0 then [rest + [Exec(t)], other] else [other, rest + [Exec(t)]]) && u < t && u < |p.tasks|
    requires Leads(p.(threads := if i == 0 then [rest + [Exec(t), Seek(ForTask(u), Begin)], other]
                                 else [other, rest + [Exec(t), Seek(ForTask(u), Begin)]]), r)
    ensures Leads(p, r)
  {
    hide Leads;
    var q := p.(threads := if i == 0 then [rest + [Exec(t), Seek(ForTask(u), Begin)], other]
                           else [other, rest + [Exec(t), Seek(ForTask(u), Begin)]]);
    Go(p, i, rest, Exec(t), other, Await(u), Change(p, [Exec(t), Seek(ForTask(u), Begin)], false), q, r);
  }

  /** The knot: task 1, on thread 0, lies under task 3, which waits for task 2; and that,
      on thread 1, waits for task 1. */
  predicate Crossed(p: State) {
    p.threads == [[Main, Seek(ForTask(1), Begin), Exec(1), Seek(ForTask(0), Begin), Exec(3), Seek(ForTask(2), Begin)],
                  [Seek(Work, Begin), Exec(2), Seek(ForTask(1), Begin)]]
  }

  predicate BuriesNone(s: seq<Act>) {
    forall k, l :: 0 <= k < l < |s| && s[k].Exec? && s[l].Seek? && s[l].goal.ForTask? ==> s[k].task != s[l].goal.task
  }

  lemma CrossedBuriesNone()
    ensures BuriesNone([Main, Seek(ForTask(1), Begin), Exec(1), Seek(ForTask(0), Begin), Exec(3), Seek(ForTask(2), Begin)])
    ensures BuriesNone([Seek(Work, Begin), Exec(2), Seek(ForTask(1), Begin)])
  {
  }

  lemma CrossedIsKnot(p: State)
    requires Crossed(p)
    ensures Knotted(p, map[0 := 5, 1 := 2]) && NoneBuried(p)
  {
    CrossedBuriesNone();
    forall i: nat, k: nat, l: nat, t: nat
      ensures !Buried(p, i, k, l, t)
    {
      if i < |p.threads| {
        assert BuriesNone(p.threads[i]);
      }
    }
    CrossedTied(p);
  }

  lemma CrossedTied(p: State)
    requires Crossed(p)
    ensures Knotted(p, map[0 := 5, 1 := 2])
  {
    var waits: map<nat, nat> := map[0 := 5, 1 := 2];
    assert Waits(p, waits, 0) && Awaited(p, waits, 0) == 2 && Waits(p, waits, 1) && Awaited(p, waits, 1) == 1;
    assert RunsUnder(p, waits, 2, 1, 1) && RunsUnder(p, waits, 1, 0, 2);
    assert Tied(p, waits, 0) && Tied(p, waits, 1);
    hide Tied, Crossed;
    assert 0 in waits;
  }

  /** From where task 1 has been started in place and helps with task 3: task 0 ends, the
      worker starts task 2, and each waits for what the other has under it. */
  lemma CrossLeads(p: State, busy: seq<Act>)
    requires busy == [Seek(Work, Begin), Exec(0)] && p.deques == [[1, 2], []] && p.lock.None? && |p.tasks| == 4
    requires p.threads == [[Main, Seek(ForTask(1), Begin), Exec(1), Seek(ForTask(0), Begin), Exec(3)], busy]
    requires !p.tasks[0].io && !p.tasks[1].state.Pending? && p.tasks[2].state.Pending?
    ensures exists r :: Leads(p, r) && Crossed(r)
  {
    hide Leads;
    var low: seq<Act>, none: seq<nat> := [Seek(Work, Begin)], [];
    var deep := [Main, Seek(ForTask(1), Begin), Exec(1), Seek(ForTask(0), Begin)];
    var a := deep + [Exec(3)];
    assert a == [Main, Seek(ForTask(1), Begin), Exec(1), Seek(ForTask(0), Begin), Exec(3)];
    assert p.threads == [a, busy];
    var s1 := p.(threads := [a, low], tasks := p.tasks[0 := p.tasks[0].(state := Done)]);
    var s2 := s1.(deques := [[2], []], queued := s1.queued - 1);
    var s3 := Enter(s2, 2).(threads := [a, [Seek(Work, Begin), Exec(2)]], deques := [none, []], queued := s2.queued - 1);
    var s4 := s3.(threads := [a, low + [Exec(2), Seek(ForTask(1), Begin)]]);
    var s5 := s4.(threads := [deep + [Exec(3), Seek(ForTask(2), Begin)], low + [Exec(2), Seek(ForTask(1), Begin)]]);
    assert deep + [Exec(3), Seek(ForTask(2), Begin)] == [Main, Seek(ForTask(1), Begin), Exec(1), Seek(ForTask(0), Begin), Exec(3), Seek(ForTask(2), Begin)];
    assert low + [Exec(2), Seek(ForTask(1), Begin)] == [Seek(Work, Begin), Exec(2), Seek(ForTask(1), Begin)];
    assert Crossed(s5);
    LeadsNowhere(s5);
    WaitLeads(s4, 0, deep, low + [Exec(2), Seek(ForTask(1), Begin)], 3, 2, s5);
    assert low + [Exec(2)] == [Seek(Work, Begin), Exec(2)];
    WaitLeads(s3, 1, low, a, 2, 1, s5);
    assert [2] + none == [2] && [1] + [2] == [1, 2];
    WorkerLeads(s2, a, 2, none, s5);
    StaleLeads(s1, a, 1, [2], s5);
    ReturnLeads(p, a, 0, s5);
  }

  /** Two threads and four tasks, each waiting only for one spawned before it: stuck for
      ever, and no task lies under its own waiter. */
  lemma KnotWithoutBurial()
    ensures exists schedule ::
              && Downward(Init(1, 0), schedule) && Run(Init(1, 0), schedule).Some?
              && var p := Run(Init(1, 0), schedule).value; Knotted(p, map[0 := 5, 1 := 2]) && NoneBuried(p)
  {
    hide Downward, Run, Knotted, NoneBuried;
    var start := Init(1, 0);
    var work, busy := [Seek(Work, Begin)], [Seek(Work, Begin), Exec(0)];
    var none: seq<nat>, noTasks: seq<Task> := [], [];
    assert start.threads == [[Main], work] && start.deques == [[], []];
    var idle := Task(Pending, false);
    var s1 := start.(deques := [none + [0], []], queued := 1, tasks := noTasks + [idle]);
    var s2 := Enter(s1, 0).(threads := [[Main], busy], deques := [none, []], queued := 0);
    var s3 := s2.(deques := [none + [1], []], queued := 1, tasks := s2.tasks + [idle]);
    var s4 := s3.(deques := [[1] + [2], []], queued := 2, tasks := s3.tasks + [idle]);
    var s5 := s4.(deques := [[1, 2] + [3], []], queued := 3, tasks := s4.tasks + [idle]);
    var s6 := Enter(s5, 1).(threads := [[Main, Seek(ForTask(1), Begin), Exec(1)], busy]);
    var rest := [Main, Seek(ForTask(1), Begin)];
    var s7 := Enter(s6, 3).(threads := [rest + [Exec(1), Seek(ForTask(0), Begin), Exec(3)], busy], deques := [[1, 2], []], queued := 2);
    assert rest + [Exec(1), Seek(ForTask(0), Begin), Exec(3)] == [Main, Seek(ForTask(1), Begin), Exec(1), Seek(ForTask(0), Begin), Exec(3)];
    CrossLeads(s7, busy);
    var r :| Leads(s7, r) && Crossed(r);
    CrossedIsKnot(r);
    hide Leads, Crossed;
    assert rest + [Exec(1)] == [Main, Seek(ForTask(1), Begin), Exec(1)];
    HelpLeads(s6, rest, busy, 1, 0, [1, 2], 3, r);
    InPlaceLeads(s5, busy, 1, r);
    assert none + [1] == [1] && [1] + [2] == [1, 2] && none + [0] == [0] + none;
    SpawnLeads(s4, busy, [1, 2], r);
    SpawnLeads(s3, busy, [1], r);
    SpawnLeads(s2, busy, none, r);
    WorkerLeads(s1, [Main], 0, none, r);
    SpawnLeads(start, work, none, r);
    LedThere(start, r);
  }

  lemma LedThere(p: State, r: State)
    requires Leads(p, r)
    ensures exists schedule :: Downward(p, schedule) && Run(p, schedule) == Some(r)
  {
  }
}
