// What a task does after its token, or the global one, is cancelled, and what a poisoned lock stops.
module Supersession {
  import opened ClientChannels
  import opened MiningTasks
  import opened ChannelHistory
  import SnapshotCoherence

  /** Headers a cancelled task may still hash: one if it is waiting at the second poll. */
  function TurnsLeft(k: Task): nat {
    if k.phase.Armed? then 1 else 0
  }

  lemma ActUsesTurn(lib: Library, m: Miner, t: nat, a: Act)
    requires t < |m.tasks| && CancelSeen(m, m.tasks[t])
    ensures var n := ActStep(lib, m, t, a);
            |n.tasks| == |m.tasks|
            && |n.tasks[t].attempts| + TurnsLeft(n.tasks[t]) <= |m.tasks[t].attempts| + TurnsLeft(m.tasks[t])
  {
    hide NtimeNow, NextShare, Validated;
  }

  lemma StepUsesTurn(lib: Library, m: Miner, l: Label, t: nat)
    requires t < |m.tasks| && CancelSeen(m, m.tasks[t])
    ensures var n := Step(lib, m, l);
            t < |n.tasks| && CancelSeen(n, n.tasks[t])
            && |n.tasks[t].attempts| + TurnsLeft(n.tasks[t]) <= |m.tasks[t].attempts| + TurnsLeft(m.tasks[t])
  {
    hide Apply;
    match l {
      case Take(i, a) =>
        ActFrame(lib, m, i, a);
        if i == t { ActUsesTurn(lib, m, t, a); }
        hide ActStep;
      case _ =>
    }
  }

  /** Once cancelled, a task hashes at most one more header, whatever the rest of the run does, and
      none at all unless it was waiting at the second poll of its `select!`. */
  lemma {:induction false} CancelledTaskHashesAtMostOnce(lib: Library, m: Miner, ls: seq<Label>, t: nat)
    requires t < |m.tasks| && (m.stopped || m.tasks[t].token in m.cancelled)
    ensures var n := Run(lib, m, ls);
            && t < |n.tasks|
            && |n.tasks[t].attempts| <= |m.tasks[t].attempts| + (if m.tasks[t].phase == Armed then 1 else 0)
    decreases |ls|
  {
    if ls != [] {
      StepUsesTurn(lib, m, ls[0], t);
      CancelledTaskHashesAtMostOnce(lib, Step(lib, m, ls[0]), ls[1..], t);
    }
  }

  /** In every interleaving: once a newer task exists, a task hashes at most one more header, whatever
      the rest of the run does, and none at all unless it was waiting for its turn. */
  lemma OlderTasksHashAtMostOnce(lib: Library, c: Channel, single: bool, before: seq<Label>, after: seq<Label>, t: nat)
    requires t + 1 < |Run(lib, NewMiner(c, single), before).tasks|
    ensures var m := Run(lib, NewMiner(c, single), before);
            var n := Run(lib, m, after);
            && t < |n.tasks|
            && |n.tasks[t].attempts| <= |m.tasks[t].attempts| + (if m.tasks[t].phase == Armed then 1 else 0)
  {
    var m := Run(lib, NewMiner(c, single), before);
    SnapshotCoherence.RunKeepsTokens(lib, NewMiner(c, single), before);
    CancelledTaskHashesAtMostOnce(lib, m, after, t);
  }

  lemma ActivatingCallSpawns(lib: Library, m: Miner, r: Request)
    requires m.handler.Idle? && !m.poisoned && Takes(lib, m.channel, r) && StartsWork(r)
    ensures var n := Run(lib, m, CallLabels(r));
            |n.tasks| == |m.tasks| + 1 && forall t :: 0 <= t < |m.tasks| ==> n.tasks[t] == m.tasks[t]
  {
    HandleIsUninterruptedCall(lib, m, r);
    RequestWrittenOut(lib, m.channel, r);
    hide Apply, Run;
  }

  /** After a completed handler call that was accepted and made a job active, every task spawned before
      it hashes at most one more header, and none unless it was waiting for its turn. */
  lemma ActivationStopsOlderTasks(
    lib: Library, c: Channel, single: bool, before: seq<Label>, r: Request, after: seq<Label>, t: nat)
    requires var m := Run(lib, NewMiner(c, single), before);
             && m.handler.Idle? && !m.poisoned && Takes(lib, m.channel, r) && StartsWork(r) && t < |m.tasks|
    ensures var m := Run(lib, NewMiner(c, single), before);
            var n := Run(lib, Run(lib, m, CallLabels(r)), after);
            && t < |n.tasks|
            && |n.tasks[t].attempts| <= |m.tasks[t].attempts| + (if m.tasks[t].phase == Armed then 1 else 0)
  {
    var m := Run(lib, NewMiner(c, single), before);
    ActivatingCallSpawns(lib, m, r);
    RunConcat(lib, NewMiner(c, single), before, CallLabels(r));
    OlderTasksHashAtMostOnce(lib, c, single, before + CallLabels(r), after, t);
  }

  // ----- a poisoned lock -----

  lemma ActCannotWrite(lib: Library, m: Miner, t: nat, a: Act)
    requires m.poisoned
    ensures ActStep(lib, m, t, a).channel == m.channel
  {
  }

  /** Once a channel's lock is poisoned, nothing in any run changes that channel again, and every
      handler call for it fails. */
  lemma {:induction false} PoisonFreezesChannel(lib: Library, m: Miner, ls: seq<Label>)
    requires m.poisoned
    ensures Run(lib, m, ls).poisoned && Run(lib, m, ls).channel == m.channel
    ensures forall r :: Handle(lib, Run(lib, m, ls), r) == (Run(lib, m, ls), Poisoned)
    decreases |ls|
  {
    if ls != [] {
      if ls[0].Take? {
        ActCannotWrite(lib, m, ls[0].task, ls[0].act);
        ActFrame(lib, m, ls[0].task, ls[0].act);
      }
      assert Step(lib, m, ls[0]).poisoned && Step(lib, m, ls[0]).channel == m.channel by { hide ActStep, Apply; }
      hide Step;
      PoisonFreezesChannel(lib, Step(lib, m, ls[0]), ls[1..]);
    }
  }
}
