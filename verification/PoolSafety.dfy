/** What every interleaving of the pool keeps: the count of queued entries, one run per
    task, no lost wakeup, and a join that waits for every spawned task. */
module PoolSafety {
  import opened Common
  import opened Pool

  // ---- shape --------------------------------------------------------------

  ghost predicate ActOk(p: State, a: Act) {
    match a
    case Exec(t) => t < |p.tasks|
    case Spawned(t) => t < |p.tasks|
    case Counting(t) => t < |p.tasks|
    case Finished(t) => t < |p.tasks|
    case Seek(goal, phase) =>
      && (goal.ForTask? ==> goal.task < |p.tasks|)
      && (goal.ForMail? ==> goal.chan < |p.mail|)
      && (phase.Taken? || phase.Ready? ==> phase.entry < |p.tasks|)
      && (phase.Look? ==> phase.k < |p.deques|)
      && (phase.Claim? ==> goal.ForTask?)
    case _ => true
  }

  /** What may lie under another act: user code, or a seeker running an entry. */
  predicate Under(a: Act) {
    a.Main? || a.Exec? || (a.Seek? && a.phase.Begin?)
  }

  ghost predicate StackOk(p: State, s: seq<Act>) {
    forall k :: 0 <= k < |s| ==> ActOk(p, s[k]) && (k < |s| - 1 ==> Under(s[k]))
  }

  ghost predicate DequesOk(p: State) {
    forall d, k :: 0 <= d < |p.deques| && 0 <= k < |p.deques[d]| ==> p.deques[d][k] < |p.tasks|
  }

  ghost predicate Shape(p: State) {
    && |p.threads| == |p.deques| > 0
    && (forall i :: 0 <= i < |p.threads| ==> StackOk(p, p.threads[i]))
    && DequesOk(p)
  }

  /** The tables only grow. */
  ghost predicate Grown(p: State, p': State) {
    |p'.tasks| >= |p.tasks| && |p'.mail| == |p.mail| && |p'.deques| == |p.deques|
  }

  ghost predicate NowOk(p: State, now: seq<Act>) {
    && |now| <= 2
    && (|now| > 0 ==> ActOk(p, now[0]))
    && (|now| > 1 ==> Under(now[0]) && ActOk(p, now[1]))
  }

  /** A change leaves the stacks to be updated and everything else well formed. */
  ghost predicate ChangeOk(p: State, c: Option<Change>) {
    c.Some? ==>
      c.value.pool.threads == p.threads && Grown(p, c.value.pool) && NowOk(c.value.pool, c.value.now) && DequesOk(c.value.pool)
  }

  lemma UserShape(p: State, top: Act, e: Event)
    requires DequesOk(p) && ActOk(p, top) && (top.Main? || top.Exec?)
    ensures ChangeOk(p, UserStep(p, top, e))
  {
  }

  lemma LookShape(p: State, i: nat, goal: Goal, k: nat)
    requires DequesOk(p) && ActOk(p, Seek(goal, Look(k)))
    ensures ChangeOk(p, LookStep(p, i, goal, k))
  {
    hide TakeSource;
    if |p.deques| > 0 && p.deques[TakeSource(p, i, k)] != [] {
      var d := TakeSource(p, i, k);
      var c := LookStep(p, i, goal, k).value;
      forall b, n | 0 <= b < |c.pool.deques| && 0 <= n < |c.pool.deques[b]|
        ensures c.pool.deques[b][n] < |p.tasks|
      {
        if b == d {
          assert c.pool.deques[d][n] == p.deques[d][if k == 0 then n else n + 1];
        }
      }
    }
  }

  lemma SeekShape(p: State, i: nat, goal: Goal, phase: Phase)
    requires DequesOk(p) && |p.deques| > 0 && ActOk(p, Seek(goal, phase))
    ensures ChangeOk(p, SeekStep(p, i, goal, phase))
  {
    hide LookStep;
    if phase.Look? {
      LookShape(p, i, goal, phase.k);
    }
  }

  lemma PushShape(p: State, i: nat, t: nat)
    requires DequesOk(p) && i < |p.deques| && t < |p.tasks|
    ensures DequesOk(p.(deques := p.deques[i := p.deques[i] + [t]]))
  {
  }

  lemma EffectShape(p: State, i: nat, e: Event)
    requires Shape(p) && i < |p.threads| && |p.threads[i]| > 0
    ensures ChangeOk(p, Effect(p, i, Top(p.threads[i]), e))
  {
    hide UserStep, SeekStep, DequesOk;
    var top := Top(p.threads[i]);
    assert StackOk(p, p.threads[i]) && ActOk(p, top);
    match top
    case Main => UserShape(p, top, e);
    case Exec(_) => UserShape(p, top, e);
    case Seek(goal, phase) => SeekShape(p, i, goal, phase); SameDeques(p, p);
    case Spawned(t) => PushShape(p, i, t);
    case _ =>
      var c := Effect(p, i, top, e);
      if c.Some? {
        SameDeques(p, c.value.pool);
      }
  }

  lemma SameDeques(p: State, p': State)
    requires DequesOk(p) && p'.deques == p.deques && |p'.tasks| >= |p.tasks|
    ensures DequesOk(p')
  {
  }

  lemma StackGrows(p: State, p': State, s: seq<Act>)
    requires StackOk(p, s) && Grown(p, p')
    ensures StackOk(p', s)
  {
    forall k | 0 <= k < |s|
      ensures ActOk(p', s[k]) && (k < |s| - 1 ==> Under(s[k]))
    {
      assert ActOk(p, s[k]);
    }
  }

  lemma StackPut(p: State, s: seq<Act>, now: seq<Act>)
    requires StackOk(p, s) && |s| > 0 && NowOk(p, now)
    ensures StackOk(p, s[..|s| - 1] + now)
  {
    hide ActOk;
  }

  lemma StackRoused(p: State, s: seq<Act>)
    requires StackOk(p, s)
    ensures StackOk(p, Roused(s))
  {
  }

  /** Every step keeps the stacks and the tables well formed. */
  lemma StepShape(p: State, i: nat, e: Event)
    requires Shape(p) && Step(p, i, e).Some?
    ensures Shape(Step(p, i, e).value) && Grown(p, Step(p, i, e).value)
  {
    hide Effect, StackOk, NowOk, DequesOk, Roused;
    EffectShape(p, i, e);
    var c := Effect(p, i, Top(p.threads[i]), e).value;
    var p' := Apply(p, i, c);
    SameDeques(c.pool, p');
    forall j | 0 <= j < |p'.threads|
      ensures StackOk(p', p'.threads[j])
    {
      StackGrows(p, p', p.threads[j]);
      NowGrows(c.pool, p', c.now);
      if j == i {
        StackPut(p', p.threads[i], c.now);
      }
      StackRoused(p', Put(p, i, c.now)[j]);
    }
  }

  lemma NowGrows(p: State, p': State, now: seq<Act>)
    requires NowOk(p, now) && Grown(p, p')
    ensures NowOk(p', now)
  {
  }

  // ---- the count of queued entries ----------------------------------------

  /** The counter is the entries in the deques, and those taken but not yet counted
      out, less those pushed but not yet counted in.  The code sees it modulo a word. */
  ghost predicate Accounted(p: State) {
    && p.queued == Entries(p.deques) + Sum(p.threads, OfTaken) - Sum(p.threads, OfCounting)
    && Entries(p.deques) + Sum(p.threads, OfTaken) < WORD
  }

  lemma LookEntries(p: State, i: nat, goal: Goal, k: nat)
    requires LookStep(p, i, goal, k).Some?
    ensures var c := LookStep(p, i, goal, k).value;
            && c.pool.queued == p.queued
            && Entries(c.pool.deques) + WeightOf(c.now, OfTaken) == Entries(p.deques)
            && WeightOf(c.now, OfCounting) == 0
  {
    hide TakeSource, Entries;
    var d := TakeSource(p, i, k);
    var q := p.deques[d];
    if q != [] {
      EntriesUpdate(p.deques, d, if k == 0 then q[..|q| - 1] else q[1..]);
    }
  }

  /** What a change does to both sides of the account. */
  ghost predicate Balanced(p: State, top: Act, c: Change) {
    && Entries(c.pool.deques) + WeightOf(c.now, OfTaken) - Weight(OfTaken, top)
       - (WeightOf(c.now, OfCounting) - Weight(OfCounting, top)) - c.pool.queued
       == Entries(p.deques) - p.queued
    && Entries(c.pool.deques) + WeightOf(c.now, OfTaken) <= Entries(p.deques) + Weight(OfTaken, top) + B(Room(p))
  }

  lemma SeekEntries(p: State, i: nat, goal: Goal, phase: Phase)
    requires SeekStep(p, i, goal, phase).Some?
    ensures Balanced(p, Seek(goal, phase), SeekStep(p, i, goal, phase).value)
  {
    hide LookStep, Entries, Sum;
    if phase.Look? {
      LookEntries(p, i, goal, phase.k);
    }
  }

  lemma EffectEntries(p: State, i: nat, e: Event)
    requires Shape(p) && i < |p.threads| && |p.threads[i]| > 0
    requires Effect(p, i, Top(p.threads[i]), e).Some?
    ensures Balanced(p, Top(p.threads[i]), Effect(p, i, Top(p.threads[i]), e).value)
  {
    hide SeekStep, Entries, Sum, Shape;
    var top := Top(p.threads[i]);
    if top.Seek? && e.Move? {
      SeekEntries(p, i, top.goal, top.phase);
    }
    if top.Spawned? {
      EntriesUpdate(p.deques, i, p.deques[i] + [top.task]);
    }
  }

  lemma StepAccounted(p: State, i: nat, e: Event)
    requires Shape(p) && Accounted(p) && Step(p, i, e).Some?
    ensures Accounted(Step(p, i, e).value)
  {
    hide Effect, Sum, Entries, Weight;
    EffectShape(p, i, e);
    EffectEntries(p, i, e);
    var c := Effect(p, i, Top(p.threads[i]), e).value;
    ApplySum(p, i, c, OfTaken);
    ApplySum(p, i, c, OfCounting);
  }

  // ---- one run per task ---------------------------------------------------

  function IsRunning(p: State, t: nat): nat {
    B(t < |p.tasks| && p.tasks[t].state.Running?)
  }

  function IsStarted(p: State, t: nat): nat {
    B(t < |p.tasks| && !p.tasks[t].state.Pending?)
  }

  /** A task's closure has been entered exactly when the task is not pending, and then
      once; while it runs it is on exactly one stack, once. */
  ghost predicate RunsOnce(p: State) {
    && (forall t: nat :: Sum(p.threads, OfExec(t)) == IsRunning(p, t))
    && (forall t: nat :: p.started[t] == IsStarted(p, t))
  }

  /** What a change does to the runs of `t`. */
  ghost predicate SameRuns(p: State, top: Act, c: Change, t: nat) {
    && WeightOf(c.now, OfExec(t)) + IsRunning(p, t) == Weight(OfExec(t), top) + IsRunning(c.pool, t)
    && c.pool.started[t] + IsStarted(p, t) == p.started[t] + IsStarted(c.pool, t)
  }

  lemma ClaimRuns(p: State, goal: Goal, phase: Phase, t: nat, other: Phase, u: nat)
    requires ClaimStep(p, goal, t, other).Some?
    ensures SameRuns(p, Seek(goal, phase), ClaimStep(p, goal, t, other).value, u)
  {
  }

  lemma SeekRuns(p: State, i: nat, goal: Goal, phase: Phase, t: nat)
    requires SeekStep(p, i, goal, phase).Some?
    ensures SameRuns(p, Seek(goal, phase), SeekStep(p, i, goal, phase).value, t)
  {
    hide ClaimStep, TakeSource;
    if phase.Claim? && goal.ForTask? {
      ClaimRuns(p, goal, phase, goal.task, Look(0), t);
    } else if phase.Ready? {
      ClaimRuns(p, goal, phase, phase.entry, Begin, t);
    }
  }

  lemma EffectRuns(p: State, i: nat, top: Act, e: Event, t: nat)
    requires Effect(p, i, top, e).Some? && (top.Exec? ==> IsRunning(p, top.task) == 1)
    ensures SameRuns(p, top, Effect(p, i, top, e).value, t)
  {
    hide SeekStep, Room;
    if top.Seek? && e.Move? {
      SeekRuns(p, i, top.goal, top.phase, t);
    }
  }

  /** What the top act executes is running. */
  lemma TopRuns(p: State, i: nat, k: nat)
    requires RunsOnce(p) && i < |p.threads| && k < |p.threads[i]| && p.threads[i][k].Exec?
    ensures IsRunning(p, p.threads[i][k].task) == 1
  {
    var t := p.threads[i][k].task;
    SumAtLeast(p.threads, i, OfExec(t));
    SumOfAtLeast(p.threads[i], k, OfExec(t));
  }

  lemma StepRuns(p: State, i: nat, e: Event)
    requires Shape(p) && RunsOnce(p) && Step(p, i, e).Some?
    ensures RunsOnce(Step(p, i, e).value)
  {
    hide Effect, Sum, Weight, ChangeOk;
    EffectShape(p, i, e);
    var top := Top(p.threads[i]);
    var c := Effect(p, i, top, e).value;
    NowShort(p, Effect(p, i, top, e));
    var p' := Apply(p, i, c);
    if top.Exec? {
      TopRuns(p, i, |p.threads[i]| - 1);
    }
    forall t: nat
      ensures Sum(p'.threads, OfExec(t)) == IsRunning(p', t) && p'.started[t] == IsStarted(p', t)
    {
      EffectRuns(p, i, top, e, t);
      ApplySum(p, i, c, OfExec(t));
    }
  }

  lemma NowShort(p: State, c: Option<Change>)
    requires ChangeOk(p, c) && c.Some?
    ensures |c.value.now| <= 2
  {
  }

  // ---- no task is lost ----------------------------------------------------

  ghost predicate Listed(deques: seq<seq<nat>>, t: nat) {
    exists d: nat :: d < |deques| && t in deques[d]
  }

  predicate IsPending(p: State, t: nat) {
    t < |p.tasks| && p.tasks[t].state.Pending?
  }

  /** A task nobody has started is in some deque, or in some thread's hands. */
  ghost predicate NoneLost(p: State) {
    forall t: nat :: IsPending(p, t) ==> Listed(p.deques, t) || Sum(p.threads, OfHeld(t)) > 0
  }

  /** After a change a pending task is in hand, in a deque, or as it was. */
  ghost predicate StillFound(p: State, top: Act, c: Change, t: nat) {
    IsPending(c.pool, t) ==>
      || WeightOf(c.now, OfHeld(t)) > 0
      || Listed(c.pool.deques, t)
      || (IsPending(p, t) && !Listed(p.deques, t) && Weight(OfHeld(t), top) == 0)
  }

  lemma LookFinds(p: State, i: nat, goal: Goal, k: nat, t: nat)
    requires LookStep(p, i, goal, k).Some?
    ensures StillFound(p, Seek(goal, Look(k)), LookStep(p, i, goal, k).value, t)
  {
    hide TakeSource;
    var c := LookStep(p, i, goal, k).value;
    var d := TakeSource(p, i, k);
    var q := p.deques[d];
    if q != [] && Listed(p.deques, t) && WeightOf(c.now, OfHeld(t)) == 0 {
      var a: nat :| a < |p.deques| && t in p.deques[a];
      if a == d {
        var n :| 0 <= n < |q| && q[n] == t;
        assert if k == 0 then c.pool.deques[d][n] == t else c.pool.deques[d][n - 1] == t;
      }
      assert t in c.pool.deques[a];
    }
  }

  lemma SeekFinds(p: State, i: nat, goal: Goal, phase: Phase, t: nat)
    requires SeekStep(p, i, goal, phase).Some?
    ensures StillFound(p, Seek(goal, phase), SeekStep(p, i, goal, phase).value, t)
  {
    hide LookStep;
    if phase.Look? {
      LookFinds(p, i, goal, phase.k, t);
    }
  }

  lemma EffectFinds(p: State, i: nat, top: Act, e: Event, t: nat)
    requires Effect(p, i, top, e).Some?
    ensures StillFound(p, top, Effect(p, i, top, e).value, t)
  {
    hide SeekStep, Room;
    var c := Effect(p, i, top, e).value;
    if top.Seek? && e.Move? {
      SeekFinds(p, i, top.goal, top.phase, t);
    } else if top.Spawned? {
      if t == top.task {
        assert t in c.pool.deques[i];
      } else if Listed(p.deques, t) {
        var d: nat :| d < |p.deques| && t in p.deques[d];
        assert t in c.pool.deques[d];
      }
    }
  }

  lemma StepFindsAt(p: State, i: nat, e: Event, t: nat)
    requires Shape(p) && NoneLost(p) && Step(p, i, e).Some? && IsPending(Step(p, i, e).value, t)
    ensures Listed(Step(p, i, e).value.deques, t) || Sum(Step(p, i, e).value.threads, OfHeld(t)) > 0
  {
    hide Effect, Sum, Weight, WeightOf, ChangeOk, Listed, Put, Broadcast, Shape;
    EffectShape(p, i, e);
    var top := Top(p.threads[i]);
    var c := Effect(p, i, top, e).value;
    NowShort(p, Effect(p, i, top, e));
    EffectFinds(p, i, top, e, t);
    ApplySum(p, i, c, OfHeld(t));
    SumAtLeast(p.threads, i, OfHeld(t));
    SumOfAtLeast(p.threads[i], |p.threads[i]| - 1, OfHeld(t));
  }

  lemma StepFinds(p: State, i: nat, e: Event)
    requires Shape(p) && NoneLost(p) && Step(p, i, e).Some?
    ensures NoneLost(Step(p, i, e).value)
  {
    hide Step, Sum, Listed, Shape;
    forall t: nat | IsPending(Step(p, i, e).value, t)
      ensures Listed(Step(p, i, e).value.deques, t) || Sum(Step(p, i, e).value.threads, OfHeld(t)) > 0
    {
      StepFindsAt(p, i, e, t);
    }
  }

  // ---- the spawned tasks --------------------------------------------------

  /** The spawned tasks not finished yet. */
  function Undone(tasks: seq<Task>): nat {
    if |tasks| == 0 then 0
    else Undone(tasks[..|tasks| - 1]) + B(tasks[|tasks| - 1].io && !tasks[|tasks| - 1].state.Done?)
  }

  lemma {:induction false} UndoneUpdate(tasks: seq<Task>, t: nat, x: Task)
    requires t < |tasks|
    ensures Undone(tasks[t := x]) + B(tasks[t].io && !tasks[t].state.Done?) == Undone(tasks) + B(x.io && !x.state.Done?)
  {
    var n := |tasks| - 1;
    if t < n {
      UndoneUpdate(tasks[..n], t, x);
      assert tasks[t := x][..n] == tasks[..n][t := x];
    } else {
      assert tasks[t := x][..n] == tasks[..n];
    }
  }

  lemma {:induction false} NoneUndone(tasks: seq<Task>, t: nat)
    requires Undone(tasks) == 0 && t < |tasks| && tasks[t].io
    ensures tasks[t].state.Done?
  {
    if t < |tasks| - 1 {
      NoneUndone(tasks[..|tasks| - 1], t);
    }
  }

  /** The io count is the spawned tasks not done, and those done but not yet taken off. */
  ghost predicate IoCounted(p: State) {
    p.ioPending == Undone(p.tasks) + Sum(p.threads, OfFinishing(p.tasks))
  }

  /** Tasks keep whether they are io. */
  ghost predicate SameIo(tasks: seq<Task>, tasks': seq<Task>) {
    |tasks'| >= |tasks| && forall t :: 0 <= t < |tasks| ==> tasks'[t].io == tasks[t].io
  }

  ghost predicate FinishingOk(n: nat, s: seq<Act>) {
    forall k :: 0 <= k < |s| && s[k].Finished? ==> s[k].task < n
  }

  lemma {:induction false} SameFinishingOf(s: seq<Act>, tasks: seq<Task>, tasks': seq<Task>)
    requires SameIo(tasks, tasks') && FinishingOk(|tasks|, s)
    ensures SumOf(s, OfFinishing(tasks')) == SumOf(s, OfFinishing(tasks))
  {
    if |s| > 0 {
      SameFinishingOf(s[..|s| - 1], tasks, tasks');
    }
  }

  lemma {:induction false} SameFinishing(threads: seq<seq<Act>>, tasks: seq<Task>, tasks': seq<Task>)
    requires SameIo(tasks, tasks') && forall i :: 0 <= i < |threads| ==> FinishingOk(|tasks|, threads[i])
    ensures Sum(threads, OfFinishing(tasks')) == Sum(threads, OfFinishing(tasks))
  {
    if |threads| > 0 {
      SameFinishing(threads[..|threads| - 1], tasks, tasks');
      SameFinishingOf(threads[|threads| - 1], tasks, tasks');
    }
  }

  /** What a change does to the io count. */
  ghost predicate IoBalanced(p: State, top: Act, c: Change) {
    && SameIo(p.tasks, c.pool.tasks)
    && c.pool.ioPending + Weight(OfFinishing(c.pool.tasks), top) + Undone(p.tasks)
       == p.ioPending + WeightOf(c.now, OfFinishing(c.pool.tasks)) + Undone(c.pool.tasks)
  }

  lemma ClaimIo(p: State, goal: Goal, phase: Phase, t: nat, other: Phase)
    requires ClaimStep(p, goal, t, other).Some?
    ensures IoBalanced(p, Seek(goal, phase), ClaimStep(p, goal, t, other).value)
  {
    hide Undone;
    if IsPending(p, t) {
      UndoneUpdate(p.tasks, t, p.tasks[t].(state := Running));
    }
  }

  lemma SeekIo(p: State, i: nat, goal: Goal, phase: Phase)
    requires SeekStep(p, i, goal, phase).Some?
    ensures IoBalanced(p, Seek(goal, phase), SeekStep(p, i, goal, phase).value)
  {
    hide ClaimStep, TakeSource, Undone;
    if phase.Claim? && goal.ForTask? {
      ClaimIo(p, goal, phase, goal.task, Look(0));
    } else if phase.Ready? {
      ClaimIo(p, goal, phase, phase.entry, Begin);
    }
  }

  lemma UserIo(p: State, top: Act, e: Event)
    requires (top.Main? || top.Exec?) && UserStep(p, top, e).Some? && (top.Exec? ==> IsRunning(p, top.task) == 1)
    ensures IoBalanced(p, top, UserStep(p, top, e).value)
  {
    hide Undone;
    if e.Spawn? {
      OneMore(p.tasks, Task(Pending, e.io));
    } else if e.Return? && top.Exec? {
      UndoneUpdate(p.tasks, top.task, p.tasks[top.task].(state := Done));
    }
  }

  lemma OneMore(tasks: seq<Task>, x: Task)
    ensures Undone(tasks + [x]) == Undone(tasks) + B(x.io && !x.state.Done?)
  {
    assert (tasks + [x])[..|tasks|] == tasks;
  }

  lemma EffectIo(p: State, i: nat, top: Act, e: Event)
    requires Effect(p, i, top, e).Some? && (top.Exec? ==> IsRunning(p, top.task) == 1)
    ensures IoBalanced(p, top, Effect(p, i, top, e).value)
  {
    hide SeekStep, UserStep, Room, Undone;
    if top.Main? || top.Exec? {
      UserIo(p, top, e);
    } else if top.Seek? && e.Move? {
      SeekIo(p, i, top.goal, top.phase);
    }
  }

  lemma StepIo(p: State, i: nat, e: Event)
    requires Shape(p) && RunsOnce(p) && IoCounted(p) && Step(p, i, e).Some?
    ensures IoCounted(Step(p, i, e).value)
  {
    hide Effect, Sum, Weight, ChangeOk, Undone;
    EffectShape(p, i, e);
    var top := Top(p.threads[i]);
    var c := Effect(p, i, top, e).value;
    NowShort(p, Effect(p, i, top, e));
    if top.Exec? {
      TopRuns(p, i, |p.threads[i]| - 1);
    }
    EffectIo(p, i, top, e);
    forall j | 0 <= j < |p.threads|
      ensures FinishingOk(|p.tasks|, p.threads[j])
    {
      ShapeFinishing(p, j);
    }
    SameFinishing(p.threads, p.tasks, c.pool.tasks);
    ApplySum(p, i, c, OfFinishing(c.pool.tasks));
  }

  lemma ShapeFinishing(p: State, j: nat)
    requires Shape(p) && j < |p.threads|
    ensures FinishingOk(|p.tasks|, p.threads[j])
  {
    assert StackOk(p, p.threads[j]);
    assert forall k :: 0 <= k < |p.threads[j]| ==> ActOk(p, p.threads[j][k]);
  }

  /** Waiting for the spawned tasks ends only when every task spawned has finished. */
  lemma JoinWaitsForAll(p: State, i: nat, t: nat)
    requires IoCounted(p) && i < |p.threads| && |p.threads[i]| > 0 && Top(p.threads[i]) == Seek(ForAll, Begin)
    requires Step(p, i, Move).Some? && Top(Step(p, i, Move).value.threads[i]) == Wake(true, WantLock)
    requires t < |p.tasks| && p.tasks[t].io
    ensures p.tasks[t].state.Done?
  {
    NoneUndone(p.tasks, t);
  }
}
