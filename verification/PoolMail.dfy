/** Mail: over every run what is in a channel is what was sent to it and not yet received. */
module PoolMail {
  import opened Common
  import opened Pool
  import opened PoolWaking

  /** Whether the step sends to the channel: the code a thread runs does. */
  function Sends(p: State, i: nat, e: Event, c: nat): nat {
    B(i < |p.threads| && |p.threads[i]| > 0 && (Top(p.threads[i]).Main? || Top(p.threads[i]).Exec?) && e == Send(c))
  }

  /** Whether the step receives from the channel: a thread that waits for mail there finds
      some. */
  function Receives(p: State, i: nat, e: Event, c: nat): nat {
    B(i < |p.threads| && |p.threads[i]| > 0 && Top(p.threads[i]) == Seek(ForMail(c), Begin) && e.Move? && c < |p.mail| && p.mail[c] > 0)
  }

  function AllSent(p: State, schedule: seq<(nat, Event)>, c: nat): nat
    decreases |schedule|
  {
    if |schedule| == 0 || Step(p, schedule[0].0, schedule[0].1).None? then 0
    else Sends(p, schedule[0].0, schedule[0].1, c) + AllSent(Step(p, schedule[0].0, schedule[0].1).value, schedule[1..], c)
  }

  function AllReceived(p: State, schedule: seq<(nat, Event)>, c: nat): nat
    decreases |schedule|
  {
    if |schedule| == 0 || Step(p, schedule[0].0, schedule[0].1).None? then 0
    else Receives(p, schedule[0].0, schedule[0].1, c) + AllReceived(Step(p, schedule[0].0, schedule[0].1).value, schedule[1..], c)
  }

  lemma UserMail(p: State, top: Act, e: Event, c: nat)
    requires (top.Main? || top.Exec?) && UserStep(p, top, e).Some? && c < |p.mail|
    ensures var mail := UserStep(p, top, e).value.pool.mail; |mail| == |p.mail| && mail[c] == p.mail[c] + B(e == Send(c))
  {
  }

  lemma BeginMail(p: State, goal: Goal, c: nat)
    requires BeginStep(p, goal).Some? && c < |p.mail|
    ensures var mail := BeginStep(p, goal).value.pool.mail;
            |mail| == |p.mail| && mail[c] + B(goal == ForMail(c) && p.mail[c] > 0) == p.mail[c]
  {
  }

  /** Whatever else a thread does leaves the mail alone. */
  lemma OtherMail(p: State, i: nat, top: Act, e: Event)
    requires !top.Main? && !top.Exec? && !(top.Seek? && top.phase.Begin?) && Effect(p, i, top, e).Some?
    ensures Effect(p, i, top, e).value.pool.mail == p.mail
  {
    hide Room, TakeSource, Wants;
  }

  lemma StepMail(p: State, i: nat, e: Event, c: nat)
    requires Step(p, i, e).Some? && c < |p.mail|
    ensures var p' := Step(p, i, e).value;
            |p'.mail| == |p.mail| && p'.mail[c] + Receives(p, i, e, c) == p.mail[c] + Sends(p, i, e, c)
  {
    var top := Top(p.threads[i]);
    hide Put, Broadcast, LookStep, ClaimStep, LockStep, Room;
    if top.Main? || top.Exec? {
      UserMail(p, top, e, c);
    } else if top.Seek? && top.phase.Begin? {
      BeginMail(p, top.goal, c);
    } else {
      OtherMail(p, i, top, e);
    }
    hide UserStep, BeginStep;
  }

  lemma {:induction false} RunMail(p: State, schedule: seq<(nat, Event)>, c: nat)
    requires Run(p, schedule).Some? && c < |p.mail|
    ensures var p' := Run(p, schedule).value;
            |p'.mail| == |p.mail| && p'.mail[c] + AllReceived(p, schedule, c) == p.mail[c] + AllSent(p, schedule, c)
    decreases |schedule|
  {
    hide Step, Sends, Receives;
    if |schedule| > 0 {
      StepMail(p, schedule[0].0, schedule[0].1, c);
      RunMail(Step(p, schedule[0].0, schedule[0].1).value, schedule[1..], c);
    }
  }

  /** Nothing that was sent is lost, and nothing is received that was not. */
  lemma MailIsKept(workers: nat, chans: nat, schedule: seq<(nat, Event)>, c: nat)
    requires Run(Init(workers, chans), schedule).Some? && c < chans
    ensures var p := Run(Init(workers, chans), schedule).value;
            |p.mail| == chans && p.mail[c] == AllSent(Init(workers, chans), schedule, c) - AllReceived(Init(workers, chans), schedule, c)
  {
    RunMail(Init(workers, chans), schedule, c);
    hide Run, AllSent, AllReceived;
  }
}
