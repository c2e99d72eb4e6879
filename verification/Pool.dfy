/** The work-stealing pool as an interleaving of its atomic steps: the count of queued
    entries, claiming, sleeping and waking. */
module Pool {
  import opened Common

  const WORD: int := 0x1_0000_0000_0000_0000

  datatype TaskState = Pending | Running | Done

  datatype Task = Task(state: TaskState, io: bool)

  /** What a thread that looks for work is waiting for: to be stopped, for a task, for
      every spawned task, or for a message. */
  datatype Goal = Work | ForTask(task: nat) | ForAll | ForMail(chan: nat)

  datatype Phase =
    | Begin
    | Claim
      /** Looking in the deque `k` places after its own. */
    | Look(k: nat)
      /** Took an entry, not yet counted out of the queue. */
    | Taken(entry: nat)
      /** About to claim the entry. */
    | Ready(entry: nat)
    | Lock
    | Test1
    | Test2
    | Asleep
    | Leave

  datatype Waking = WantLock | Locked | Unlock

  /** One level of what a thread is doing; user code is `Main` or `Exec`. */
  datatype Act =
    | Main
    | Exec(task: nat)
    | Seek(goal: Goal, phase: Phase)
      /** A task made but not pushed, and pushed but not counted. */
    | Spawned(task: nat)
    | Counting(task: nat)
      /** A result published; the io count and the broadcast are still to come. */
    | Finished(task: nat)
      /** Broadcasting under the lock, when `last` after telling the workers to stop. */
    | Wake(last: bool, waking: Waking)

  datatype State = State(
    threads: seq<seq<Act>>,
    deques: seq<seq<nat>>,
    queued: int,
    ioPending: int,
    tasks: seq<Task>,
    mail: seq<nat>,
    lock: Option<nat>,
    stop: bool,
    /** Every task whose closure was entered, once per entry. */
    started: multiset<nat>)

  /** What user code does next; `Move` is the next step of runtime code, and
      `Spurious` a wakeup nobody asked for. */
  datatype Event = Spawn(io: bool) | Await(task: nat) | Send(chan: nat) | Recv(chan: nat) | Return | Move | Spurious

  // ---- the steps ----------------------------------------------------------

  function Top(s: seq<Act>): (r: Act)
    requires |s| > 0
  {
    s[|s| - 1]
  }

  /** Replace the top of a thread's stack. */
  function Put(p: State, i: nat, now: seq<Act>): seq<seq<Act>>
    requires i < |p.threads| && |p.threads[i]| > 0
  {
    p.threads[i := p.threads[i][..|p.threads[i]| - 1] + now]
  }

  function Roused(s: seq<Act>): (r: seq<Act>)
    ensures |r| == |s|
  {
    if |s| > 0 && Top(s).Seek? && Top(s).phase.Asleep? then s[..|s| - 1] + [Seek(Top(s).goal, Lock)] else s
  }

  /** A broadcast: every sleeper goes back for the lock. */
  function Broadcast(threads: seq<seq<Act>>): (r: seq<seq<Act>>)
    ensures |r| == |threads|
  {
    seq(|threads|, i requires 0 <= i < |threads| => Roused(threads[i]))
  }

  function B(b: bool): nat {
    if b then 1 else 0
  }

  /** What the waiter tests before the queue. */
  predicate Wants(p: State, goal: Goal) {
    match goal
    case Work => p.stop
    case ForTask(t) => t < |p.tasks| && p.tasks[t].state.Done?
    case ForAll => p.ioPending <= 0
    case ForMail(c) => c < |p.mail| && p.mail[c] > 0
  }

  function Entries(deques: seq<seq<nat>>): nat {
    if |deques| == 0 then 0 else Entries(deques[..|deques| - 1]) + |deques[|deques| - 1]|
  }

  function TakeSource(p: State, i: nat, k: nat): (d: nat)
    requires |p.deques| > 0
    ensures d < |p.deques|
  {
    (i + k) % |p.deques|
  }

  /** The task entered: claimed, and counted as started. */
  function Enter(p: State, t: nat): State
    requires t < |p.tasks|
  {
    p.(tasks := p.tasks[t := p.tasks[t].(state := Running)], started := p.started + multiset{t})
  }

  /** What a step changes: the shared state, the top of the thread's stack, and whether
      it broadcasts. */
  datatype Change = Change(pool: State, now: seq<Act>, loud: bool)

  function Quiet(pool: State, now: seq<Act>): Option<Change> {
    Some(Change(pool, now, false))
  }

  function UserStep(p: State, top: Act, e: Event): Option<Change>
    requires top.Main? || top.Exec?
  {
    match e
    case Spawn(io) =>
      Quiet(p.(tasks := p.tasks + [Task(Pending, io)], ioPending := p.ioPending + B(io)), [top, Spawned(|p.tasks|)])
    case Await(t) =>
      if t < |p.tasks| then Quiet(p, [top, Seek(ForTask(t), Begin)]) else None
    case Send(c) =>
      if c < |p.mail| then Quiet(p.(mail := p.mail[c := p.mail[c] + 1]), [top, Wake(false, WantLock)]) else None
    case Recv(c) =>
      if c < |p.mail| then Quiet(p, [top, Seek(ForMail(c), Begin)]) else None
    case Return =>
      if top.Main? then Quiet(p, [Seek(ForAll, Begin)])
      else if top.task < |p.tasks| then
        Quiet(p.(tasks := p.tasks[top.task := p.tasks[top.task].(state := Done)]), [Finished(top.task)])
      else None
    case _ => None
  }

  function BeginStep(p: State, goal: Goal): Option<Change> {
    match goal
    case Work => Quiet(p, [Seek(goal, Look(0))])
    case ForTask(t) =>
      if t >= |p.tasks| then None
      else if p.tasks[t].state.Done? then Quiet(p, [])
      else Quiet(p, [Seek(goal, if p.tasks[t].state.Pending? then Claim else Look(0))])
    case ForAll => Quiet(p, if p.ioPending <= 0 then [Wake(true, WantLock)] else [Seek(goal, Look(0))])
    case ForMail(c) =>
      if c >= |p.mail| then None
      else if p.mail[c] > 0 then Quiet(p.(mail := p.mail[c := p.mail[c] - 1]), [])
      else Quiet(p, [Seek(goal, Look(0))])
  }

  /** Look in one deque: the owner takes its newest entry, a thief the oldest. */
  function LookStep(p: State, i: nat, goal: Goal, k: nat): Option<Change> {
    if |p.deques| == 0 then None
    else
      var d := TakeSource(p, i, k);
      var q := p.deques[d];
      if q == [] then Quiet(p, [Seek(goal, if k + 1 < |p.deques| then Look(k + 1) else Lock)])
      else if k == 0 then Quiet(p.(deques := p.deques[d := q[..|q| - 1]]), [Seek(goal, Taken(q[|q| - 1]))])
      else Quiet(p.(deques := p.deques[d := q[1..]]), [Seek(goal, Taken(q[0]))])
  }

  /** Claim a task nobody has started and run it here; otherwise go on as `other`. */
  function ClaimStep(p: State, goal: Goal, t: nat, other: Phase): Option<Change> {
    if t < |p.tasks| && p.tasks[t].state.Pending? then Quiet(Enter(p, t), [Seek(goal, Begin), Exec(t)])
    else Quiet(p, [Seek(goal, other)])
  }

  function SeekStep(p: State, i: nat, goal: Goal, phase: Phase): Option<Change> {
    match phase
    case Begin => BeginStep(p, goal)
    case Claim => if goal.ForTask? then ClaimStep(p, goal, goal.task, Look(0)) else None
    case Look(k) => LookStep(p, i, goal, k)
    case Taken(t) => Quiet(p.(queued := p.queued - 1), [Seek(goal, Ready(t))])
    case Ready(t) => ClaimStep(p, goal, t, Begin)
    case Lock => if p.lock.None? then Quiet(p.(lock := Some(i)), [Seek(goal, Test1)]) else None
    case Test1 => Quiet(p, [Seek(goal, if Wants(p, goal) then Leave else Test2)])
    case Test2 =>
      if p.queued % WORD != 0 then Quiet(p, [Seek(goal, Leave)]) else Quiet(p.(lock := None), [Seek(goal, Asleep)])
    case Asleep => None
    case Leave => Quiet(p.(lock := None), if goal.Work? && p.stop then [] else [Seek(goal, Begin)])
  }

  /** Room for one more entry: no allocation holds more than a word can count. */
  predicate Room(p: State) {
    Entries(p.deques) + Sum(p.threads, OfTaken) + 1 < WORD
  }

  /** Taking the lock, broadcasting under it, and letting it go. */
  function LockStep(p: State, i: nat, last: bool, w: Waking): Option<Change> {
    match w
    case WantLock => if p.lock.None? then Quiet(p.(lock := Some(i)), [Wake(last, Locked)]) else None
    case Locked => Some(Change(p.(stop := p.stop || last), [Wake(last, Unlock)], true))
    case Unlock => Quiet(p.(lock := None), [])
  }

  function Effect(p: State, i: nat, top: Act, e: Event): Option<Change> {
    if top.Main? || top.Exec? then UserStep(p, top, e)
    else if top.Seek? && top.phase.Asleep? && e.Spurious? then Quiet(p, [Seek(top.goal, Lock)])
    else if !e.Move? then None
    else
      match top
      case Seek(goal, phase) => SeekStep(p, i, goal, phase)
      case Spawned(t) =>
        if i < |p.deques| && Room(p) then Quiet(p.(deques := p.deques[i := p.deques[i] + [t]]), [Counting(t)]) else None
      case Counting(_) => Quiet(p.(queued := p.queued + 1), [Wake(false, WantLock)])
      case Finished(t) =>
        if t < |p.tasks| then Quiet(p.(ioPending := p.ioPending - B(p.tasks[t].io)), [Wake(false, WantLock)]) else None
      case Wake(last, w) => LockStep(p, i, last, w)
      case _ => None
  }

  function Apply(p: State, i: nat, c: Change): State
    requires i < |p.threads| && |p.threads[i]| > 0
  {
    c.pool.(threads := if c.loud then Broadcast(Put(p, i, c.now)) else Put(p, i, c.now))
  }

  /** One step of thread `i`; `None` when it cannot be taken. */
  function Step(p: State, i: nat, e: Event): Option<State> {
    if i >= |p.threads| || |p.threads[i]| == 0 then None
    else
      var c := Effect(p, i, Top(p.threads[i]), e);
      if c.None? then None else Some(Apply(p, i, c.value))
  }

  // ---- counting what the threads are doing --------------------------------

  datatype Meter = OfTaken | OfCounting | OfExec(task: nat) | OfHeld(task: nat) | OfFinishing(tasks: seq<Task>)

  function Weight(m: Meter, a: Act): nat {
    match m
    case OfTaken => B(a.Seek? && a.phase.Taken?)
    case OfCounting => B(a.Counting?)
    case OfExec(t) => B(a == Exec(t))
    case OfHeld(t) => B(a == Spawned(t) || (a.Seek? && (a.phase == Taken(t) || a.phase == Ready(t))))
    case OfFinishing(tasks) => B(a.Finished? && a.task < |tasks| && tasks[a.task].io)
  }

  function SumOf(s: seq<Act>, m: Meter): nat {
    if |s| == 0 then 0 else SumOf(s[..|s| - 1], m) + Weight(m, s[|s| - 1])
  }

  function Sum(threads: seq<seq<Act>>, m: Meter): nat {
    if |threads| == 0 then 0 else Sum(threads[..|threads| - 1], m) + SumOf(threads[|threads| - 1], m)
  }

  lemma {:induction false} SumUpdate(threads: seq<seq<Act>>, i: nat, s: seq<Act>, m: Meter)
    requires i < |threads|
    ensures Sum(threads[i := s], m) + SumOf(threads[i], m) == Sum(threads, m) + SumOf(s, m)
  {
    var n := |threads| - 1;
    if i < n {
      SumUpdate(threads[..n], i, s, m);
      assert threads[i := s][..n] == threads[..n][i := s];
    } else {
      assert threads[i := s][..n] == threads[..n];
    }
  }

  function WeightOf(now: seq<Act>, m: Meter): nat {
    (if |now| > 0 then Weight(m, now[0]) else 0) + (if |now| > 1 then Weight(m, now[1]) else 0)
  }

  lemma SumTop(s: seq<Act>, now: seq<Act>, m: Meter)
    requires |s| > 0 && |now| <= 2
    ensures SumOf(s[..|s| - 1] + now, m) + Weight(m, Top(s))
            == SumOf(s, m) + WeightOf(now, m)
  {
    var rest := s[..|s| - 1];
    if |now| == 0 {
      assert rest + now == rest;
    } else if |now| == 1 {
      assert (rest + now)[..|rest|] == rest;
    } else {
      assert (rest + now)[..|rest| + 1] == rest + [now[0]];
      assert (rest + [now[0]])[..|rest|] == rest;
    }
  }

  /** What a step does to any count: the old top goes, the new ones come. */
  lemma PutSum(p: State, i: nat, now: seq<Act>, m: Meter)
    requires i < |p.threads| && |p.threads[i]| > 0 && |now| <= 2
    ensures Sum(Put(p, i, now), m) + Weight(m, Top(p.threads[i]))
            == Sum(p.threads, m) + WeightOf(now, m)
  {
    SumUpdate(p.threads, i, p.threads[i][..|p.threads[i]| - 1] + now, m);
    SumTop(p.threads[i], now, m);
  }

  lemma {:induction false} BroadcastSum(threads: seq<seq<Act>>, m: Meter)
    ensures Sum(Broadcast(threads), m) == Sum(threads, m)
  {
    if |threads| > 0 {
      var n := |threads| - 1;
      BroadcastSum(threads[..n], m);
      assert Broadcast(threads)[..n] == Broadcast(threads[..n]);
      RousedSum(threads[n], m);
    }
  }

  lemma RousedSum(s: seq<Act>, m: Meter)
    ensures SumOf(Roused(s), m) == SumOf(s, m)
  {
    if |s| > 0 && Top(s).Seek? && Top(s).phase.Asleep? {
      SumTop(s, [Seek(Top(s).goal, Lock)], m);
    }
  }

  /** A step exchanges its thread's top act for the new ones, in every count. */
  lemma ApplySum(p: State, i: nat, c: Change, m: Meter)
    requires i < |p.threads| && |p.threads[i]| > 0 && |c.now| <= 2
    ensures Sum(Apply(p, i, c).threads, m) + Weight(m, Top(p.threads[i])) == Sum(p.threads, m) + WeightOf(c.now, m)
  {
    hide Sum, Weight, Broadcast, Put;
    PutSum(p, i, c.now, m);
    BroadcastSum(Put(p, i, c.now), m);
  }

  lemma {:induction false} SumZero(threads: seq<seq<Act>>, m: Meter)
    requires forall i, k :: 0 <= i < |threads| && 0 <= k < |threads[i]| ==> Weight(m, threads[i][k]) == 0
    ensures Sum(threads, m) == 0
  {
    hide Weight;
    if |threads| > 0 {
      SumZero(threads[..|threads| - 1], m);
      SumOfZero(threads[|threads| - 1], m);
    }
  }

  lemma {:induction false} SumOfZero(s: seq<Act>, m: Meter)
    requires forall k :: 0 <= k < |s| ==> Weight(m, s[k]) == 0
    ensures SumOf(s, m) == 0
  {
    hide Weight;
    if |s| > 0 {
      SumOfZero(s[..|s| - 1], m);
    }
  }

  lemma {:induction false} SumAtLeast(threads: seq<seq<Act>>, i: nat, m: Meter)
    requires i < |threads|
    ensures Sum(threads, m) >= SumOf(threads[i], m)
  {
    if i < |threads| - 1 {
      SumAtLeast(threads[..|threads| - 1], i, m);
    }
  }

  lemma {:induction false} SumOfAtLeast(s: seq<Act>, k: nat, m: Meter)
    requires k < |s|
    ensures SumOf(s, m) >= Weight(m, s[k])
  {
    if k < |s| - 1 {
      SumOfAtLeast(s[..|s| - 1], k, m);
    }
  }

  lemma {:induction false} EntriesUpdate(deques: seq<seq<nat>>, d: nat, q: seq<nat>)
    requires d < |deques|
    ensures Entries(deques[d := q]) + |deques[d]| == Entries(deques) + |q|
  {
    var n := |deques| - 1;
    if d < n {
      EntriesUpdate(deques[..n], d, q);
      assert deques[d := q][..n] == deques[..n][d := q];
    } else {
      assert deques[d := q][..n] == deques[..n];
    }
  }
}
