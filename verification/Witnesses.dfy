// Concrete miners and runs, for results that say something can happen.
module Witnesses {
  import opened Wrappers
  import opened ClientChannels
  import opened MiningTasks

  // A library that accepts everything, except that no standard job can be derived.
  const AGREEABLE := Library(_ => true, _ => true, (_, _) => true, (_, _) => None, (_, _) => true, (_, _) => true,
                             (_, _) => true, (_, _, _, _, _) => true)

  const FIRST_JOB := JobMessage(1, None, 0)
  const FIRST_TIP := PrevHashMessage(1, 0, 0, 5)
  const OPENED := NewChannel(1, Standard, [], 0)

  /** A miner whose job 1 has just been activated by a SetNewPrevHash. */
  function FirstActivation(single: bool): Miner {
    Handle(AGREEABLE, Handle(AGREEABLE, NewMiner(OPENED, single), NewJob(FIRST_JOB)).0, PrevHash(FIRST_TIP)).0
  }

  const FIRST_LABELS := CallLabels(NewJob(FIRST_JOB)) + CallLabels(PrevHash(FIRST_TIP))

  lemma FirstActivationIsARun(single: bool)
    ensures var m := Run(AGREEABLE, NewMiner(OPENED, single), FIRST_LABELS);
            m == FirstActivation(single) && m.tasks == [NewTask(1)] && m.cancelled == {0} && m.handler.Idle?
            && m.channel.active == Some(ActiveJob(Job(1, 0, false), 5)) && m.channel.tip == Some(ChainTip(0, 0))
            && !m.poisoned && !m.stopped && m.current == 1 && m.upstream == []
            && m.single == NewMiner(OPENED, single).single
  {
    var m0 := NewMiner(OPENED, single);
    var m1 := Handle(AGREEABLE, m0, NewJob(FIRST_JOB)).0;
    HandleIsUninterruptedCall(AGREEABLE, m0, NewJob(FIRST_JOB));
    HandleIsUninterruptedCall(AGREEABLE, m1, PrevHash(FIRST_TIP));
    RunConcat(AGREEABLE, m0, CallLabels(NewJob(FIRST_JOB)), CallLabels(PrevHash(FIRST_TIP)));
  }
}
