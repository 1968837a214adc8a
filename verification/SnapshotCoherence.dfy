// Which task may run, and on what: after every completed handler call at most the newest task
// holds an uncancelled token, and its snapshot is the channel's active job and chain tip. The
// interleaving of handler steps and task steps is arbitrary.
module SnapshotCoherence {
  import opened Wrappers
  import opened ClientChannels
  import opened MiningTasks
  import opened Witnesses

  /** Token k belongs to task k-1; the tokens cancelled are exactly those before the current one,
      and the current one itself while a handler has revoked but not yet replaced it. */
  ghost predicate TokensInOrder(m: Miner) {
    && |m.tasks| == m.current
    && (forall i :: 0 <= i < |m.tasks| ==> m.tasks[i].token == i + 1)
    && (forall k: nat :: k in m.cancelled <==> k < m.current || (k == m.current && m.handler.Revoked?))
  }

  predicate Live(m: Miner, t: nat)
    requires t < |m.tasks|
  {
    m.tasks[t].token !in m.cancelled
  }

  ghost predicate OnActiveJob(m: Miner, k: Task) {
    k.snap.Some? ==> m.channel.active == Some(k.snap.value.job) && m.channel.tip == Some(k.snap.value.tip)
  }

  /** Between handler calls, a live task is the newest one and works on the active job. */
  ghost predicate Coherent(m: Miner) {
    m.handler.Idle? ==>
      forall t :: 0 <= t < |m.tasks| && Live(m, t) ==> t == |m.tasks| - 1 && OnActiveJob(m, m.tasks[t])
  }

  ghost predicate Inv(m: Miner) {
    && TokensInOrder(m)
    && (m.handler.Idle? && m.tasks != [] ==> OnActiveJob(m, m.tasks[|m.tasks| - 1]))
  }

  lemma StepKeepsInv(lib: Library, m: Miner, l: Label)
    requires Inv(m)
    ensures Inv(Step(lib, m, l))
  {
    hide ActStep;
    match l {
      case Write(r) => ApplyFrame(lib, m.channel, r);
      case Take(t, a) => ActFrame(lib, m, t, a);
      case _ =>
    }
  }

  lemma {:induction false} RunKeepsInv(lib: Library, m: Miner, ls: seq<Label>)
    requires Inv(m)
    ensures Inv(Run(lib, m, ls))
    decreases |ls|
  {
    if ls != [] {
      StepKeepsInv(lib, m, ls[0]);
      RunKeepsInv(lib, Step(lib, m, ls[0]), ls[1..]);
    }
  }

  lemma {:induction false} RunKeepsTokens(lib: Library, m: Miner, ls: seq<Label>)
    requires TokensInOrder(m)
    ensures TokensInOrder(Run(lib, m, ls))
    decreases |ls|
  {
    if ls != [] {
      assert TokensInOrder(Step(lib, m, ls[0])) by {
        hide ActStep, Apply;
        if ls[0].Take? { ActFrame(lib, m, ls[0].task, ls[0].act); }
      }
      RunKeepsTokens(lib, Step(lib, m, ls[0]), ls[1..]);
    }
  }

  /** In every interleaving, whenever no handler call is in progress, at most one task is live, it
      is the one spawned last, and its snapshot, once taken, is the channel's active job and tip. */
  lemma {:induction false} SnapshotsAreCoherent(lib: Library, c: Channel, single: bool, ls: seq<Label>)
    ensures Coherent(Run(lib, NewMiner(c, single), ls))
  {
    RunKeepsInv(lib, NewMiner(c, single), ls);
  }

  /** While a call is in progress the old task may be live on a job that is no longer active, so
      "completed" is needed: here task 0 runs on job 1 when job 2 has just been written. */
  lemma MidCallIsNotCoherent()
    ensures exists lib: Library, c: Channel, ls: seq<Label> ::
              var m := Run(lib, NewMiner(c, false), ls);
              |m.tasks| == 1 && Live(m, 0) && !OnActiveJob(m, m.tasks[0])
  {
    var m2 := FirstActivation(false);
    FirstActivationIsARun(false);
    var job2 := NewJob(JobMessage(2, Some(7), 0));
    var d := [Take(0, Enter), Take(0, Load), Write(job2)];
    RunConcat(AGREEABLE, NewMiner(OPENED, false), FIRST_LABELS, d);
    var m3 := Step(AGREEABLE, m2, d[0]);
    assert m3.tasks[0].phase.Entered? && m3.channel == m2.channel;
    var m4 := Step(AGREEABLE, m3, d[1]);
    assert m4.tasks[0].snap.Some? && m4.tasks[0].snap.value.job.job.id == 1 && m4.channel == m2.channel;
    var m5 := WriteStep(AGREEABLE, m4, job2);
    assert m5.channel.active.value.job.id == 2 && m5.tasks == m4.tasks;
    assert Run(AGREEABLE, m2, d) == m5 by {
      hide ActStep, WriteStep, Apply, FirstActivation;
      assert d[1..][1..][1..] == [];
      assert Run(AGREEABLE, m4, d[1..][1..]) == Run(AGREEABLE, m5, []);
    }
  }

  /** A spawned task finds an active job; whether it finds a chain tip depends on the server. */
  ghost predicate JobBeforeTask(m: Miner) {
    m.tasks != [] || !m.handler.Idle? ==> m.channel.active.Some?
  }

  lemma {:induction false} TasksFindAnActiveJob(lib: Library, m: Miner, ls: seq<Label>)
    requires JobBeforeTask(m)
    ensures JobBeforeTask(Run(lib, m, ls))
    decreases |ls|
  {
    if ls != [] {
      hide ActStep;
      match ls[0] {
        case Write(r) => ApplyFrame(lib, m.channel, r);
        case Take(t, a) => ActFrame(lib, m, t, a);
        case _ =>
      }
      TasksFindAnActiveJob(lib, Step(lib, m, ls[0]), ls[1..]);
    }
  }

  ghost predicate NoPanic(m: Miner) {
    forall t :: 0 <= t < |m.tasks| ==> !m.tasks[t].phase.Panicked?
  }

  lemma ActDoesNotPanic(lib: Library, m: Miner, t: nat, a: Act)
    requires t < |m.tasks| && !m.tasks[t].phase.Panicked?
    requires m.channel.tip.Some? && m.channel.active.Some?
    ensures var n := ActStep(lib, m, t, a); |n.tasks| == |m.tasks| && !n.tasks[t].phase.Panicked?
  {
  }

  lemma {:induction false} NoPanicOnceTheTipIsKnown(lib: Library, m: Miner, ls: seq<Label>)
    requires JobBeforeTask(m) && NoPanic(m) && m.channel.tip.Some?
    ensures NoPanic(Run(lib, m, ls))
    decreases |ls|
  {
    if ls != [] {
      hide ActStep;
      match ls[0] {
        case Write(r) => ApplyFrame(lib, m.channel, r);
        case Take(t, a) =>
          ActFrame(lib, m, t, a);
          if t < |m.tasks| { ActDoesNotPanic(lib, m, t, a); }
        case _ =>
      }
      NoPanicOnceTheTipIsKnown(lib, Step(lib, m, ls[0]), ls[1..]);
    }
  }

  /** The `expect` calls at a task's snapshot: the one on the chain tip fails exactly if the tip is
      unknown at that step, and the one on the active job never fails. */
  lemma SnapshotPanicsExactlyWithoutTip(lib: Library, c: Channel, single: bool, ls: seq<Label>, t: nat)
    requires c.active.None?
    requires var m := Run(lib, NewMiner(c, single), ls);
             t < |m.tasks| && m.tasks[t].phase.Entered? && !m.poisoned
    ensures var m := Run(lib, NewMiner(c, single), ls);
            Step(lib, m, Take(t, Load)).tasks[t].phase.Panicked? <==> m.channel.tip.None?
  {
    TasksFindAnActiveJob(lib, NewMiner(c, single), ls);
  }
}
