/** Sleeping and waking: whoever sleeps while it has something to do is about to be
    woken, over every run; and where helping can still leave a pool stuck. */
module PoolWaking {
  import opened Common
  import opened Pool
  import opened PoolSafety

  // ---- the lock -----------------------------------------------------------

  predicate Holds(a: Act) {
    || (a.Seek? && (a.phase.Test1? || a.phase.Test2? || a.phase.Leave?))
    || (a.Wake? && !a.waking.WantLock?)
  }

  predicate TopHolds(s: seq<Act>) {
    |s| > 0 && Holds(Top(s))
  }

  ghost predicate Exclusive(p: State) {
    && (p.lock.Some? ==> p.lock.value < |p.threads|)
    && forall i: nat :: i < |p.threads| ==> (TopHolds(p.threads[i]) <==> p.lock == Some(i))
  }

  /** The act a thread is left with once `now` has replaced its top. */
  lemma NewTop(p: State, s: seq<Act>, now: seq<Act>)
    requires StackOk(p, s) && |s| > 0
    ensures var s' := s[..|s| - 1] + now;
            if |now| > 0 then |s'| > 0 && Top(s') == now[|now| - 1] else |s'| > 0 ==> Under(Top(s'))
  {
  }

  /** A change keeps the lock to its holder. */
  ghost predicate LockKept(p: State, i: nat, c: Change) {
    && (TopHolds(c.now) <==> c.pool.lock == Some(i))
    && forall j: nat :: j != i ==> (c.pool.lock == Some(j) <==> p.lock == Some(j))
  }

  lemma SeekLock(p: State, i: nat, goal: Goal, phase: Phase)
    requires SeekStep(p, i, goal, phase).Some? && (Holds(Seek(goal, phase)) <==> p.lock == Some(i))
    ensures LockKept(p, i, SeekStep(p, i, goal, phase).value)
  {
    hide TakeSource;
  }

  lemma EffectLock(p: State, i: nat, top: Act, e: Event)
    requires Effect(p, i, top, e).Some? && (Holds(top) <==> p.lock == Some(i))
    ensures LockKept(p, i, Effect(p, i, top, e).value)
  {
    hide SeekStep, Room;
    if top.Seek? && e.Move? {
      SeekLock(p, i, top.goal, top.phase);
    }
  }

  lemma RousedHolds(s: seq<Act>)
    ensures TopHolds(Roused(s)) <==> TopHolds(s)
  {
  }

  lemma StepLock(p: State, i: nat, e: Event)
    requires Shape(p) && Exclusive(p) && Step(p, i, e).Some?
    ensures Exclusive(Step(p, i, e).value)
  {
    hide Effect, StackOk, ChangeOk, Roused;
    EffectShape(p, i, e);
    NowShort(p, Effect(p, i, Top(p.threads[i]), e));
    EffectLock(p, i, Top(p.threads[i]), e);
    var c := Effect(p, i, Top(p.threads[i]), e).value;
    var p' := Apply(p, i, c);
    NewTop(p, p.threads[i], c.now);
    forall j: nat | j < |p'.threads|
      ensures TopHolds(p'.threads[j]) <==> p'.lock == Some(j)
    {
      RousedHolds(Put(p, i, c.now)[j]);
      assert TopHolds(p.threads[j]) <==> p.lock == Some(j);
    }
  }

  // ---- no lost wakeup -----------------------------------------------------

  /** About to broadcast. */
  predicate Rousing(a: Act) {
    a.Counting? || a.Finished? || (a.Wake? && !a.waking.Unlock?)
  }

  predicate TopRousing(s: seq<Act>) {
    |s| > 0 && Rousing(Top(s))
  }

  ghost predicate Pledged(p: State) {
    exists i: nat :: i < |p.threads| && TopRousing(p.threads[i])
  }

  /** Asleep, or past the first test on the way there, though there is something to
      wake up for. */
  predicate Overslept(p: State, a: Act) {
    && a.Seek?
    && ((a.phase.Asleep? && (Wants(p, a.goal) || p.queued % WORD != 0)) || (a.phase.Test2? && Wants(p, a.goal)))
  }

  predicate TopOverslept(p: State, s: seq<Act>) {
    |s| > 0 && Overslept(p, Top(s))
  }

  ghost predicate NoneOverslept(p: State) {
    forall i: nat :: i < |p.threads| ==> !TopOverslept(p, p.threads[i])
  }

  /** A sleeper with something to wake up for has a broadcast coming. */
  ghost predicate NoLostWakeup(p: State) {
    NoneOverslept(p) || Pledged(p)
  }

  /** A pledge survives, unless the broadcast it was for happens now. */
  lemma PledgeStays(p: State, i: nat, e: Event, r: nat)
    requires Shape(p) && Step(p, i, e).Some? && r < |p.threads| && TopRousing(p.threads[r])
    requires !(r == i && Top(p.threads[i]).Wake? && Top(p.threads[i]).waking.Locked?)
    ensures Pledged(Step(p, i, e).value)
  {
    hide Shape, StackOk, SeekStep, UserStep;
    var c := Effect(p, i, Top(p.threads[i]), e).value;
    var p' := Apply(p, i, c);
    assert TopRousing(p'.threads[r]) by {
      if r == i {
        assert |c.now| == 1 && Rousing(c.now[0]);
      }
    }
  }

  /** After a broadcast nobody is left asleep, and nobody is on the way there. */
  lemma BroadcastWakes(p: State, i: nat, e: Event)
    requires Shape(p) && Exclusive(p) && Step(p, i, e).Some?
    requires Top(p.threads[i]).Wake? && Top(p.threads[i]).waking.Locked?
    ensures NoneOverslept(Step(p, i, e).value)
  {
    hide Shape, StackOk, SeekStep, UserStep, Wants;
    var p' := Step(p, i, e).value;
    assert TopHolds(p.threads[i]);
    forall j: nat | j < |p'.threads|
      ensures !TopOverslept(p', p'.threads[j])
    {
      assert j != i ==> !TopHolds(p.threads[j]);
    }
  }

  /** A change that pledges no broadcast gives no sleeper a reason to wake, but for an
      entry counted out. */
  ghost predicate NoNews(p: State, top: Act, c: Change) {
    && !c.loud
    && (forall g: Goal :: Wants(c.pool, g) ==> Wants(p, g))
    && (c.pool.queued == p.queued || (top.Seek? && top.phase.Taken? && c.pool.queued == p.queued - 1))
    && (TopOverslept(c.pool, c.now) ==> Overslept(p, top))
  }

  ghost predicate NewsOk(p: State, top: Act, c: Change) {
    NoNews(p, top, c) || TopRousing(c.now)
  }

  lemma BeginNews(p: State, goal: Goal)
    requires BeginStep(p, goal).Some?
    ensures NewsOk(p, Seek(goal, Begin), BeginStep(p, goal).value)
  {
  }

  lemma LookNews(p: State, i: nat, goal: Goal, k: nat)
    requires LookStep(p, i, goal, k).Some?
    ensures NewsOk(p, Seek(goal, Look(k)), LookStep(p, i, goal, k).value)
  {
    hide TakeSource;
  }

  lemma ClaimNews(p: State, goal: Goal, phase: Phase, t: nat, other: Phase)
    requires ClaimStep(p, goal, t, other).Some? && !other.Asleep? && !other.Test2?
    ensures NewsOk(p, Seek(goal, phase), ClaimStep(p, goal, t, other).value)
  {
  }

  lemma SeekNews(p: State, i: nat, goal: Goal, phase: Phase)
    requires SeekStep(p, i, goal, phase).Some?
    ensures NewsOk(p, Seek(goal, phase), SeekStep(p, i, goal, phase).value)
  {
    hide BeginStep, LookStep, ClaimStep;
    match phase
    case Begin => BeginNews(p, goal);
    case Claim =>
      if goal.ForTask? {
        ClaimNews(p, goal, phase, goal.task, Look(0));
      }
    case Look(k) => LookNews(p, i, goal, k);
    case Ready(t) => ClaimNews(p, goal, phase, t, Begin);
    case _ =>
  }

  lemma EffectNews(p: State, i: nat, top: Act, e: Event)
    requires Effect(p, i, top, e).Some? && !Rousing(top)
    ensures NewsOk(p, top, Effect(p, i, top, e).value)
  {
    hide SeekStep, Room;
    if top.Seek? && e.Move? {
      SeekNews(p, i, top.goal, top.phase);
    }
  }

  /** With no broadcast pledged, an entry still to be counted out is still counted. */
  lemma TakenIsQueued(p: State, i: nat)
    requires Shape(p) && Accounted(p) && !Pledged(p) && i < |p.threads| && |p.threads[i]| > 0
    requires Top(p.threads[i]).Seek? && Top(p.threads[i]).phase.Taken?
    ensures p.queued % WORD != 0
  {
    hide Entries;
    NoneCounting(p);
    SumAtLeast(p.threads, i, OfTaken);
    SumOfAtLeast(p.threads[i], |p.threads[i]| - 1, OfTaken);
  }

  lemma NoneCounting(p: State)
    requires Shape(p) && !Pledged(p)
    ensures Sum(p.threads, OfCounting) == 0
  {
    hide Sum;
    forall i, k | 0 <= i < |p.threads| && 0 <= k < |p.threads[i]|
      ensures Weight(OfCounting, p.threads[i][k]) == 0
    {
      assert StackOk(p, p.threads[i]) && !TopRousing(p.threads[i]);
    }
    SumZero(p.threads, OfCounting);
  }

  lemma StepWakes(p: State, i: nat, e: Event)
    requires Shape(p) && Exclusive(p) && Accounted(p) && NoLostWakeup(p) && Step(p, i, e).Some?
    ensures NoLostWakeup(Step(p, i, e).value)
  {
    hide Shape, StackOk, Exclusive, Effect, NoneOverslept, Accounted;
    var top := Top(p.threads[i]);
    if top.Wake? && top.waking.Locked? {
      BroadcastWakes(p, i, e);
    } else if Pledged(p) {
      var r: nat :| r < |p.threads| && TopRousing(p.threads[r]);
      PledgeStays(p, i, e, r);
    } else {
      assert !TopRousing(p.threads[i]);
      QuietWakes(p, i, e);
    }
  }

  lemma QuietWakes(p: State, i: nat, e: Event)
    requires Shape(p) && Accounted(p) && !Pledged(p) && NoneOverslept(p) && Step(p, i, e).Some?
    ensures NoLostWakeup(Step(p, i, e).value)
  {
    hide Effect, Accounted, Wants, StackOk;
    var top := Top(p.threads[i]);
    var c := Effect(p, i, top, e).value;
    var p' := Apply(p, i, c);
    assert !Rousing(top) by {
      assert !TopRousing(p.threads[i]);
    }
    EffectNews(p, i, top, e);
    assert StackOk(p, p.threads[i]);
    NewTop(p, p.threads[i], c.now);
    if TopRousing(c.now) {
      RousedRousing(Put(p, i, c.now)[i]);
      assert TopRousing(p'.threads[i]);
    } else {
      if top.Seek? && top.phase.Taken? {
        TakenIsQueued(p, i);
      }
      forall j: nat | j < |p'.threads|
        ensures !TopOverslept(p', p'.threads[j])
      {
        assert !TopOverslept(p, p.threads[j]);
        SameWants(c.pool, p');
      }
    }
  }

  lemma RousedRousing(s: seq<Act>)
    ensures TopRousing(Roused(s)) <==> TopRousing(s)
  {
  }

  lemma SameWants(p: State, p': State)
    requires p' == p.(threads := p'.threads)
    ensures forall g: Goal :: Wants(p', g) == Wants(p, g)
  {
  }

  // ---- every run ----------------------------------------------------------

  ghost predicate Inv(p: State) {
    Shape(p) && Accounted(p) && RunsOnce(p) && NoneLost(p) && IoCounted(p) && Exclusive(p) && NoLostWakeup(p)
  }

  /** The pool as it starts: user code on one thread, and workers. */
  function Init(workers: nat, chans: nat): State {
    State([[Main]] + seq(workers, i => [Seek(Work, Begin)]), seq(workers + 1, i => []), 0, 0, [], seq(chans, i => 0), None, false, multiset{})
  }

  lemma NoneYet(workers: nat, chans: nat, m: Meter)
    requires m.OfExec? || m.OfTaken? || m.OfCounting? || m.OfHeld? || m == OfFinishing([])
    ensures Sum(Init(workers, chans).threads, m) == 0
  {
    SumZero(Init(workers, chans).threads, m);
  }

  lemma {:induction false} NoEntriesYet(n: nat)
    ensures Entries(seq(n, i => [])) == 0
  {
    if n > 0 {
      NoEntriesYet(n - 1);
      var a: seq<seq<nat>>, b: seq<seq<nat>> := seq(n, i => [])[..n - 1], seq(n - 1, i => []);
      assert a == b;
    }
  }

  lemma InitInv(workers: nat, chans: nat)
    ensures Inv(Init(workers, chans))
  {
    hide Sum, Entries;
    var p := Init(workers, chans);
    NoEntriesYet(workers + 1);
    NoneYet(workers, chans, OfTaken);
    NoneYet(workers, chans, OfCounting);
    NoneYet(workers, chans, OfFinishing([]));
    forall t: nat
      ensures Sum(p.threads, OfExec(t)) == 0
    {
      NoneYet(workers, chans, OfExec(t));
    }
  }

  lemma StepInv(p: State, i: nat, e: Event)
    requires Inv(p) && Step(p, i, e).Some?
    ensures Inv(Step(p, i, e).value)
  {
    hide Step, Shape, Accounted, RunsOnce, NoneLost, IoCounted, Exclusive, NoLostWakeup;
    StepShape(p, i, e);
    StepAccounted(p, i, e);
    StepRuns(p, i, e);
    StepFinds(p, i, e);
    StepIo(p, i, e);
    StepLock(p, i, e);
    StepWakes(p, i, e);
  }

  /** Where a schedule leads; `None` when some step of it cannot be taken. */
  function Run(p: State, schedule: seq<(nat, Event)>): Option<State>
    decreases |schedule|
  {
    if |schedule| == 0 then Some(p)
    else
      var q := Step(p, schedule[0].0, schedule[0].1);
      if q.None? then None else Run(q.value, schedule[1..])
  }

  lemma {:induction false} RunInv(p: State, schedule: seq<(nat, Event)>)
    requires Inv(p) && Run(p, schedule).Some?
    ensures Inv(Run(p, schedule).value)
    decreases |schedule|
  {
    hide Step, Inv;
    if |schedule| > 0 {
      StepInv(p, schedule[0].0, schedule[0].1);
      RunInv(Step(p, schedule[0].0, schedule[0].1).value, schedule[1..]);
    }
  }

  /** Over every run of any pool, in whatever state it has come to: a thread that sleeps,
      or is on its way there, while what it waits for has happened or the queue is not
      empty, has a broadcast coming; the queue counter is the entries, less the pushed
      not yet counted, plus the taken not yet counted out, and the io counter the io
      tasks not yet done or not yet counted as done; no task's closure is entered twice,
      none that was entered is pending, and none that is pending is lost. */
  lemma EveryRun(workers: nat, chans: nat, schedule: seq<(nat, Event)>)
    requires Run(Init(workers, chans), schedule).Some?
    ensures var p := Run(Init(workers, chans), schedule).value;
            && (forall i: nat :: i < |p.threads| && TopOverslept(p, p.threads[i]) ==>
                  exists r: nat :: r < |p.threads| && TopRousing(p.threads[r]))
            && p.queued == Entries(p.deques) + Sum(p.threads, OfTaken) - Sum(p.threads, OfCounting)
            && p.ioPending == Undone(p.tasks) + Sum(p.threads, OfFinishing(p.tasks))
            && (forall t: nat :: p.started[t] == (if t < |p.tasks| && !p.tasks[t].state.Pending? then 1 else 0))
            && (forall t: nat :: IsPending(p, t) ==> Listed(p.deques, t) || Sum(p.threads, OfHeld(t)) > 0)
  {
    hide Shape, Exclusive, Run, Init, Overslept, Sum, Entries, Undone, Listed, IsPending, TopRousing, TopOverslept;
    InitInv(workers, chans);
    RunInv(Init(workers, chans), schedule);
  }

  // ---- a pool asleep ------------------------------------------------------

  ghost predicate AllAsleep(p: State) {
    forall i: nat :: i < |p.threads| && |p.threads[i]| > 0 ==> Top(p.threads[i]).Seek? && Top(p.threads[i]).phase.Asleep?
  }

  /** When every thread sleeps (or has ended, but not all) there is no work left: no
      entry, no pending task, and nothing a sleeper waits for has happened. */
  lemma AsleepMeansIdle(p: State, i: nat, t: nat)
    requires Inv(p) && AllAsleep(p) && i < |p.threads| && |p.threads[i]| > 0
    ensures Entries(p.deques) == 0 && !IsPending(p, t) && !Wants(p, Top(p.threads[i]).goal)
  {
    hide Entries, Wants;
    assert !Pledged(p);
    NoneCounting(p);
    AsleepHolds(p, OfTaken);
    AsleepHolds(p, OfHeld(t));
    assert !TopOverslept(p, p.threads[i]);
    if Listed(p.deques, t) {
      var d: nat :| d < |p.deques| && t in p.deques[d];
      EntriesAtLeast(p.deques, d);
    }
  }

  lemma AsleepHolds(p: State, m: Meter)
    requires Shape(p) && AllAsleep(p) && (m.OfTaken? || m.OfHeld?)
    ensures Sum(p.threads, m) == 0
  {
    hide Sum;
    forall i, k | 0 <= i < |p.threads| && 0 <= k < |p.threads[i]|
      ensures Weight(m, p.threads[i][k]) == 0
    {
      assert StackOk(p, p.threads[i]);
    }
    SumZero(p.threads, m);
  }

  lemma {:induction false} EntriesAtLeast(deques: seq<seq<nat>>, d: nat)
    requires d < |deques|
    ensures Entries(deques) >= |deques[d]|
  {
    if d < |deques| - 1 {
      EntriesAtLeast(deques[..|deques| - 1], d);
    }
  }

  // ---- where helping leaves a task under its own waiter --------------------

  /** Thread `i` runs `t`, and higher on its stack, helping, waits for `t`. */
  predicate Buried(p: State, i: nat, k: nat, l: nat, t: nat) {
    && i < |p.threads| && k < l < |p.threads[i]|
    && p.threads[i][k] == Exec(t) && p.threads[i][l].Seek? && p.threads[i][l].goal == ForTask(t)
  }

  lemma KeepsWaiting(p: State, i: nat, goal: Goal, phase: Phase, e: Event)
    requires goal.ForTask? && IsRunning(p, goal.task) == 1 && Effect(p, i, Seek(goal, phase), e).Some?
    ensures var now := Effect(p, i, Seek(goal, phase), e).value.now;
            |now| > 0 && now[0].Seek? && now[0].goal == goal
  {
    hide TakeSource;
  }

  lemma BuriedSoFar(p: State, i: nat, k: nat, l: nat, t: nat, j: nat, e: Event)
    requires Shape(p) && RunsOnce(p) && Buried(p, i, k, l, t) && Step(p, j, e).Some?
    ensures Buried(Step(p, j, e).value, i, k, l, t)
  {
    hide Effect, Shape, RunsOnce, StackOk;
    TopRuns(p, i, k);
    var c := Effect(p, j, Top(p.threads[j]), e).value;
    if j == i && l == |p.threads[i]| - 1 {
      KeepsWaiting(p, i, ForTask(t), p.threads[i][l].phase, e);
    }
    var s := Put(p, j, c.now)[i];
    assert s[k] == p.threads[i][k];
    RousedKeeps(s, k);
    RousedKeeps(s, l);
  }

  lemma RousedKeeps(s: seq<Act>, k: nat)
    requires k < |s|
    ensures Roused(s)[k] == s[k] || (s[k].Seek? && Roused(s)[k].Seek? && Roused(s)[k].goal == s[k].goal)
  {
  }

  /** Once buried, always: however the run goes on, the task never finishes, and the
      wait for it never returns. */
  lemma {:induction false} BuriedForever(p: State, i: nat, k: nat, l: nat, t: nat, schedule: seq<(nat, Event)>)
    requires Inv(p) && Buried(p, i, k, l, t) && Run(p, schedule).Some?
    ensures var q := Run(p, schedule).value;
            Buried(q, i, k, l, t) && t < |q.tasks| && q.tasks[t].state.Running?
    decreases |schedule|
  {
    hide Step, Shape, Accounted, NoneLost, IoCounted, Exclusive, NoLostWakeup;
    if |schedule| == 0 {
      TopRuns(p, i, k);
    } else {
      var (j, e) := schedule[0];
      BuriedSoFar(p, i, k, l, t, j, e);
      StepInv(p, j, e);
      BuriedForever(Step(p, j, e).value, i, k, l, t, schedule[1..]);
    }
  }

  /** Every task waits only for tasks spawned before it: no cycle of waits. */
  predicate Downward(p: State, schedule: seq<(nat, Event)>)
    decreases |schedule|
  {
    |schedule| > 0 ==>
      var (i, e) := schedule[0];
      var q := Step(p, i, e);
      && (q.Some? && e.Await? && Top(p.threads[i]).Exec? ==> e.task < Top(p.threads[i]).task)
      && (q.Some? ==> Downward(q.value, schedule[1..]))
  }

  ghost predicate Leads(p: State, q: State) {
    exists schedule :: Downward(p, schedule) && Run(p, schedule) == Some(q)
  }

  lemma LeadsNowhere(p: State)
    ensures Leads(p, p)
  {
    assert Downward(p, []) && Run(p, []) == Some(p);
  }

  lemma LeadsOn(p: State, i: nat, e: Event, q: State, r: State)
    requires Step(p, i, e) == Some(q) && Leads(q, r)
    requires e.Await? && Top(p.threads[i]).Exec? ==> e.task < Top(p.threads[i]).task
    ensures Leads(p, r)
  {
    hide Step;
    var rest :| Downward(q, rest) && Run(q, rest) == Some(r);
    var schedule := [(i, e)] + rest;
    assert schedule[1..] == rest;
    assert Downward(p, schedule) && Run(p, schedule) == Some(r);
  }

  predicate Awake(s: seq<Act>) {
    |s| > 0 && !(Top(s).Seek? && (Top(s).phase.Asleep? || Top(s).phase.Taken?))
  }

  lemma RoomTwo(p: State, a: seq<Act>, b: seq<Act>, entries: seq<nat>)
    requires p.threads == [a, b] && p.deques == [entries, []] && |entries| < 10
    requires forall x :: x in a + b ==> Weight(OfTaken, x) == 0
    ensures Room(p)
  {
    forall i, k | 0 <= i < |p.threads| && 0 <= k < |p.threads[i]|
      ensures Weight(OfTaken, p.threads[i][k]) == 0
    {
      assert p.threads[i][k] in a + b;
    }
    SumZero(p.threads, OfTaken);
    assert p.deques[..1] == [entries];
    assert p.deques[..1][..0] == [];
    assert Entries(p.deques[..1]) == |entries|;
  }

  /** A quiet step of one of two threads, at the front of a run. */
  lemma Go(p: State, i: nat, rest: seq<Act>, top: Act, other: seq<Act>, e: Event, c: Change, q: State, r: State)
    requires p.threads == (if i == 0 then [rest + [top], other] else [other, rest + [top]]) && i < 2
    requires Effect(p, i, top, e) == Some(c) && !c.loud
    requires q == c.pool.(threads := if i == 0 then [rest + c.now, other] else [other, rest + c.now])
    requires e.Await? && top.Exec? ==> e.task < top.task
    requires Leads(q, r)
    ensures Leads(p, r)
  {
    hide Leads, Effect, Broadcast;
    assert (rest + [top])[..|rest|] == rest;
    assert Put(p, i, c.now) == q.threads;
    assert Step(p, i, e) == Some(q);
    LeadsOn(p, i, e, q, r);
  }

  /** User code on thread 0 spawns a task: made, pushed, counted, and the sleepers
      woken. */
  lemma SpawnLeads(p: State, b: seq<Act>, entries: seq<nat>, r: State)
    requires p.threads == [[Main], b] && p.deques == [entries, []] && p.lock.None?
    requires |entries| < 9 && Awake(b) && forall x :: x in b ==> Weight(OfTaken, x) == 0
    requires Leads(p.(deques := [entries + [|p.tasks|], []], queued := p.queued + 1, tasks := p.tasks + [Task(Pending, false)]), r)
    ensures Leads(p, r)
  {
    hide Leads, Room, UserStep, LockStep;
    var n := |p.tasks|;
    var p1 := p.(threads := [[Main, Spawned(n)], b], tasks := p.tasks + [Task(Pending, false)]);
    var p2 := p1.(threads := [[Main, Counting(n)], b], deques := [entries + [n], []]);
    var p3 := p2.(threads := [[Main, Wake(false, WantLock)], b], queued := p.queued + 1);
    WakeLeads(p3, b, r);
    assert [Main] + [Counting(n)] == [Main, Counting(n)] && [Main] + [Wake(false, WantLock)] == [Main, Wake(false, WantLock)];
    Go(p2, 0, [Main], Counting(n), b, Move, Change(p2.(queued := p.queued + 1), [Wake(false, WantLock)], false), p3, r);
    RoomTwo(p1, [Main, Spawned(n)], b, entries);
    assert [Main] + [Spawned(n)] == [Main, Spawned(n)];
    assert p1.deques[0 := p1.deques[0] + [n]] == p2.deques;
    Go(p1, 0, [Main], Spawned(n), b, Move, Change(p1.(deques := p2.deques), [Counting(n)], false), p2, r);
    SpawnBegins(p, n);
    assert [] + [Main] == [Main] && [] + [Main, Spawned(n)] == [Main, Spawned(n)];
    assert p1.ioPending == p.ioPending + 0;
    Go(p, 0, [], Main, b, Spawn(false), Change(p.(tasks := p1.tasks), [Main, Spawned(n)], false), p1, r);
  }

  lemma SpawnBegins(p: State, n: nat)
    requires n == |p.tasks|
    ensures Effect(p, 0, Main, Spawn(false)) == Some(Change(p.(tasks := p.tasks + [Task(Pending, false)]), [Main, Spawned(n)], false))
  {
    assert p.ioPending + B(false) == p.ioPending;
  }

  lemma WakeLeads(p: State, b: seq<Act>, r: State)
    requires p.threads == [[Main, Wake(false, WantLock)], b] && p.lock.None? && Awake(b)
    requires Leads(p.(threads := [[Main], b]), r)
    ensures Leads(p, r)
  {
    hide Leads;
    var p4 := p.(threads := [[Main, Wake(false, Locked)], b], lock := Some(0));
    var p5 := p4.(threads := [[Main, Wake(false, Unlock)], b]);
    var p6 := p.(threads := [[Main], b]);
    assert [Main] + [Wake(false, Unlock)] == [Main, Wake(false, Unlock)] && [Main] + [] == [Main];
    assert p5.(lock := None, threads := [[Main] + [], b]) == p6;
    Go(p5, 0, [Main], Wake(false, Unlock), b, Move, Change(p5.(lock := None), [], false), p6, r);
    LoudLeads(p4, p5, b, r);
    assert [Main] + [Wake(false, WantLock)] == [Main, Wake(false, WantLock)] && [Main] + [Wake(false, Locked)] == [Main, Wake(false, Locked)];
    Go(p, 0, [Main], Wake(false, WantLock), b, Move, Change(p.(lock := Some(0)), [Wake(false, Locked)], false), p4, r);
  }

  lemma LoudLeads(p: State, q: State, b: seq<Act>, r: State)
    requires p.threads == [[Main, Wake(false, Locked)], b] && Awake(b) && q == p.(threads := [[Main, Wake(false, Unlock)], b])
    requires Leads(q, r)
    ensures Leads(p, r)
  {
    hide Leads;
    assert [Main, Wake(false, Locked)][..1] + [Wake(false, Unlock)] == [Main, Wake(false, Unlock)];
    assert Put(p, 0, [Wake(false, Unlock)]) == q.threads;
    assert Broadcast(q.threads) == q.threads;
    assert p.(stop := p.stop || false) == p;
    assert Step(p, 0, Move) == Some(q);
    LeadsOn(p, 0, Move, q, r);
  }

  /** The worker takes the oldest entry of thread 0's deque, and is about to claim it. */
  lemma StealLeads(p: State, a: seq<Act>, t: nat, more: seq<nat>, r: State)
    requires p.threads == [a, [Seek(Work, Begin)]] && p.deques == [[t] + more, []]
    requires Leads(p.(threads := [a, [Seek(Work, Ready(t))]], deques := [more, []], queued := p.queued - 1), r)
    ensures Leads(p, r)
  {
    hide Leads, UserStep, LockStep, BeginStep, ClaimStep, Enter;
    var none: seq<Act> := [];
    var w1 := p.(threads := [a, [Seek(Work, Look(0))]]);
    var w2 := p.(threads := [a, [Seek(Work, Look(1))]]);
    var w3 := p.(threads := [a, [Seek(Work, Taken(t))]], deques := [more, []]);
    var w4 := w3.(threads := [a, [Seek(Work, Ready(t))]], queued := p.queued - 1);
    var entries := [t] + more;
    assert entries[1..] == more;
    assert forall x: Act :: none + [x] == [x];
    Go(w3, 1, none, Seek(Work, Taken(t)), a, Move, Change(w3.(queued := p.queued - 1), [Seek(Work, Ready(t))], false), w4, r);
    assert w2.deques[0] == entries && w2.deques[0 := entries[1..]] == w3.deques;
    Go(w2, 1, none, Seek(Work, Look(1)), a, Move, Change(w2.(deques := w3.deques), [Seek(Work, Taken(t))], false), w3, r);
    Go(w1, 1, none, Seek(Work, Look(0)), a, Move, Change(w1, [Seek(Work, Look(1))], false), w2, r);
    BeginWork(p);
    Go(p, 1, none, Seek(Work, Begin), a, Move, Change(p, [Seek(Work, Look(0))], false), w1, r);
  }

  /** The worker takes the oldest entry of thread 0's deque and starts its task. */
  lemma WorkerLeads(p: State, a: seq<Act>, t: nat, more: seq<nat>, r: State)
    requires p.threads == [a, [Seek(Work, Begin)]] && p.deques == [[t] + more, []] && t < |p.tasks| && p.tasks[t].state.Pending?
    requires Leads(Enter(p, t).(threads := [a, [Seek(Work, Begin), Exec(t)]], deques := [more, []], queued := p.queued - 1), r)
    ensures Leads(p, r)
  {
    hide Leads, UserStep, LockStep, BeginStep, ClaimStep, Enter;
    var none: seq<Act> := [];
    var w4 := p.(threads := [a, [Seek(Work, Ready(t))]], deques := [more, []], queued := p.queued - 1);
    var w5 := Enter(w4, t).(threads := [a, [Seek(Work, Begin), Exec(t)]]);
    assert w5 == Enter(p, t).(threads := [a, [Seek(Work, Begin), Exec(t)]], deques := [more, []], queued := p.queued - 1) by {
      EnterFrames(p, w4, t);
    }
    assert none + [Seek(Work, Ready(t))] == [Seek(Work, Ready(t))];
    assert none + [Seek(Work, Begin), Exec(t)] == [Seek(Work, Begin), Exec(t)];
    ClaimIs(w4, Work, t, Begin);
    Go(w4, 1, none, Seek(Work, Ready(t)), a, Move, Change(Enter(w4, t), [Seek(Work, Begin), Exec(t)], false), w5, r);
    StealLeads(p, a, t, more, r);
  }

  lemma BeginWork(p: State)
    ensures BeginStep(p, Work) == Some(Change(p, [Seek(Work, Look(0))], false))
  {
  }

  lemma EnterFrames(p: State, q: State, t: nat)
    requires t < |p.tasks| && q.tasks == p.tasks && q.started == p.started
    ensures Enter(q, t).tasks == Enter(p, t).tasks && Enter(q, t).started == Enter(p, t).started
    ensures Enter(q, t) == q.(tasks := Enter(q, t).tasks, started := Enter(q, t).started)
    ensures Enter(p, t) == p.(tasks := Enter(p, t).tasks, started := Enter(p, t).started)
    ensures |Enter(p, t).tasks| == |p.tasks| && forall u: nat :: u < |p.tasks| && u != t ==> Enter(p, t).tasks[u] == p.tasks[u]
    ensures Enter(p, t).tasks[t].state.Running?
  {
  }

  lemma ClaimIs(p: State, goal: Goal, t: nat, other: Phase)
    requires t < |p.tasks| && p.tasks[t].state.Pending?
    ensures ClaimStep(p, goal, t, other) == Some(Change(Enter(p, t), [Seek(goal, Begin), Exec(t)], false))
  {
  }

  /** User code awaits a task nobody has started, and runs it in place. */
  lemma InPlaceLeads(p: State, b: seq<Act>, t: nat, r: State)
    requires p.threads == [[Main], b] && t < |p.tasks| && p.tasks[t].state.Pending?
    requires Leads(Enter(p, t).(threads := [[Main, Seek(ForTask(t), Begin), Exec(t)], b]), r)
    ensures Leads(p, r)
  {
    hide Leads, LockStep, ClaimStep, Enter, LookStep;
    var none: seq<Act>, g := [], ForTask(t);
    var m1 := p.(threads := [[Main, Seek(g, Begin)], b]);
    var m2 := p.(threads := [[Main, Seek(g, Claim)], b]);
    var m3 := Enter(m2, t).(threads := [[Main, Seek(g, Begin), Exec(t)], b]);
    assert m3 == Enter(p, t).(threads := m3.threads) by {
      EnterFrames(p, m2, t);
    }
    assert none + [Main] == [Main] && none + [Main, Seek(g, Begin)] == [Main, Seek(g, Begin)];
    assert [Main] + [Seek(g, Begin)] == [Main, Seek(g, Begin)] && [Main] + [Seek(g, Claim)] == [Main, Seek(g, Claim)];
    assert [Main] + [Seek(g, Begin), Exec(t)] == [Main, Seek(g, Begin), Exec(t)];
    ClaimIs(m2, g, t, Look(0));
    Go(m2, 0, [Main], Seek(g, Claim), b, Move, Change(Enter(m2, t), [Seek(g, Begin), Exec(t)], false), m3, r);
    Go(m1, 0, [Main], Seek(g, Begin), b, Move, Change(m1, [Seek(g, Claim)], false), m2, r);
    Go(p, 0, none, Main, b, Await(t), Change(p, [Main, Seek(g, Begin)], false), m1, r);
  }

  /** Task `t`, awaiting the running task `u` of thread 1, helps with the newest entry
      of its own deque. */
  lemma HelpLeads(p: State, rest: seq<Act>, b: seq<Act>, t: nat, u: nat, older: seq<nat>, y: nat, r: State)
    requires p.threads == [rest + [Exec(t)], b] && p.deques == [older + [y], []] && u < t
    requires u < |p.tasks| && p.tasks[u].state.Running? && y < |p.tasks| && p.tasks[y].state.Pending?
    requires Leads(Enter(p, y).(threads := [rest + [Exec(t), Seek(ForTask(u), Begin), Exec(y)], b], deques := [older, []], queued := p.queued - 1), r)
    ensures Leads(p, r)
  {
    hide Leads, LockStep, ClaimStep, Enter;
    var s, g := rest + [Exec(t)], ForTask(u);
    var m5 := p.(threads := [s + [Seek(g, Begin)], b]);
    var m6 := p.(threads := [s + [Seek(g, Look(0))], b]);
    var m7 := p.(threads := [s + [Seek(g, Taken(y))], b], deques := [older, []]);
    var m8 := m7.(threads := [s + [Seek(g, Ready(y))], b], queued := p.queued - 1);
    var m9 := Enter(m8, y).(threads := [s + [Seek(g, Begin), Exec(y)], b]);
    assert s + [Seek(g, Begin), Exec(y)] == rest + [Exec(t), Seek(g, Begin), Exec(y)];
    assert m9 == Enter(p, y).(threads := [rest + [Exec(t), Seek(ForTask(u), Begin), Exec(y)], b], deques := [older, []], queued := p.queued - 1) by {
      EnterFrames(p, m8, y);
    }
    ClaimIs(m8, g, y, Begin);
    Go(m8, 0, s, Seek(g, Ready(y)), b, Move, Change(Enter(m8, y), [Seek(g, Begin), Exec(y)], false), m9, r);
    Go(m7, 0, s, Seek(g, Taken(y)), b, Move, Change(m7.(queued := p.queued - 1), [Seek(g, Ready(y))], false), m8, r);
    HelpLooks(m6, g, older, y);
    Go(m6, 0, s, Seek(g, Look(0)), b, Move, Change(m6.(deques := m7.deques), [Seek(g, Taken(y))], false), m7, r);
    Go(m5, 0, s, Seek(g, Begin), b, Move, Change(m5, [Seek(g, Look(0))], false), m6, r);
    AwaitLeads(p, rest, b, t, u, r);
  }

  lemma HelpLooks(p: State, g: Goal, older: seq<nat>, y: nat)
    requires p.deques == [older + [y], []]
    ensures LookStep(p, 0, g, 0) == Some(Change(p.(deques := [older, []]), [Seek(g, Taken(y))], false))
  {
    assert (older + [y])[..|older|] == older;
    assert p.deques[0 := older] == [older, []];
  }

  lemma AwaitLeads(p: State, rest: seq<Act>, b: seq<Act>, t: nat, u: nat, r: State)
    requires p.threads == [rest + [Exec(t)], b] && u < t && u < |p.tasks|
    requires Leads(p.(threads := [rest + [Exec(t)] + [Seek(ForTask(u), Begin)], b]), r)
    ensures Leads(p, r)
  {
    hide Leads;
    var q := p.(threads := [rest + [Exec(t)] + [Seek(ForTask(u), Begin)], b]);
    assert rest + [Exec(t), Seek(ForTask(u), Begin)] == rest + [Exec(t)] + [Seek(ForTask(u), Begin)];
    Go(p, 0, rest, Exec(t), b, Await(u), Change(p, [Exec(t), Seek(ForTask(u), Begin)], false), q, r);
  }

  /** Two threads, three tasks, each waiting only for one spawned before it: helping
      buries task 1, which waits for 0, under task 2, which waits for 1.  By
      `BuriedForever` the pool is stuck, whatever happens next. */
  lemma AcyclicYetBuried()
    ensures exists schedule ::
              && Downward(Init(1, 0), schedule) && Run(Init(1, 0), schedule).Some?
              && Buried(Run(Init(1, 0), schedule).value, 0, 2, 5, 1)
  {
    hide Downward, Run;
    var start := Init(1, 0);
    var work, busy := [Seek(Work, Begin)], [Seek(Work, Begin), Exec(0)];
    assert start.threads == [[Main], work] && start.deques == [[], []];
    var idle := Task(Pending, false);
    var s1 := start.(deques := [[0], []], queued := 1, tasks := [idle]);
    var s2 := Enter(s1, 0).(threads := [[Main], busy], deques := [[], []], queued := 0);
    var s3 := s2.(deques := [[1], []], queued := 1, tasks := s2.tasks + [idle]);
    var s4 := s3.(deques := [[1, 2], []], queued := 2, tasks := s3.tasks + [idle]);
    var s5 := Enter(s4, 1).(threads := [[Main, Seek(ForTask(1), Begin), Exec(1)], busy]);
    var rest := [Main, Seek(ForTask(1), Begin)];
    var s6 := Enter(s5, 2).(threads := [rest + [Exec(1), Seek(ForTask(0), Begin), Exec(2)], busy], deques := [[1], []], queued := 1);
    var deep := rest + [Exec(1), Seek(ForTask(0), Begin)];
    var s7 := s6.(threads := [deep + [Exec(2)] + [Seek(ForTask(1), Begin)], busy]);
    LeadsNowhere(s7);
    assert deep + [Exec(2)] == rest + [Exec(1), Seek(ForTask(0), Begin), Exec(2)];
    AwaitLeads(s6, deep, busy, 2, 1, s7);
    assert rest + [Exec(1)] == [Main, Seek(ForTask(1), Begin), Exec(1)];
    var older: seq<nat>, noEntry: seq<nat> := [1], [];
    assert older + [2] == [1, 2] && [0] + noEntry == [0];
    HelpLeads(s5, rest, busy, 1, 0, older, 2, s7);
    InPlaceLeads(s4, busy, 1, s7);
    var none: seq<nat>, noTasks: seq<Task> := [], [];
    assert [1] + [2] == [1, 2] && none + [1] == [1] && none + [0] == [0] && noTasks + [idle] == [idle];
    SpawnLeads(s3, busy, [1], s7);
    SpawnLeads(s2, busy, none, s7);
    WorkerLeads(s1, [Main], 0, noEntry, s7);
    SpawnLeads(start, work, none, s7);
    var schedule :| Downward(start, schedule) && Run(start, schedule) == Some(s7);
    assert Buried(s7, 0, 2, 5, 1);
  }
}
