// What each step of a task does, in every state a run can reach: written out in terms of the miner's
// state before the step, the library's verdicts and the source's conditions.
module TaskSteps {
  import opened Wrappers
  import opened ClientChannels
  import opened Clock
  import opened MiningTasks
  import SearchSpace

  /** Nothing but task t changed. */
  ghost predicate OnlyLocals(m: Miner, n: Miner, t: nat) {
    && |n.tasks| == |m.tasks| && n == m.(tasks := n.tasks)
    && (forall i :: 0 <= i < |m.tasks| && i != t ==> n.tasks[i] == m.tasks[i])
  }

  /** The single-submit test at a task's start: it ends the task exactly if the token is cancelled. */
  lemma TestAtTheStart(lib: Library, m: Miner, t: nat)
    requires t < |m.tasks| && m.tasks[t].phase == Spawned
    ensures var n := Step(lib, m, Take(t, Enter));
            && OnlyLocals(m, n, t)
            && (n.tasks[t].phase == Done <==> m.single == Some(true))
            && (n.tasks[t].phase == Entered && n.tasks[t].passed <==> m.single != Some(true))
  {
  }

  /** The snapshot: job, chain tip and target of that moment, unless the lock is poisoned, which ends
      the task, or one of the expected values is missing, which is a panic. */
  lemma SnapshotOfTheMoment(lib: Library, m: Miner, t: nat)
    requires t < |m.tasks| && m.tasks[t].phase == Entered
    ensures var n := Step(lib, m, Take(t, Load));
            && OnlyLocals(m, n, t)
            && (n.tasks[t].phase == Done <==> m.poisoned)
            && (n.tasks[t].phase == Panicked <==> !m.poisoned && (m.channel.tip == None || m.channel.active == None))
            && (!m.poisoned && m.channel.tip != None && m.channel.active != None ==>
                  && n.tasks[t].phase == Loaded
                  && n.tasks[t].snap == Some(Snapshot(m.channel.active.value, m.channel.tip.value, m.channel.target,
                                                      m.activatedAt)))
  {
  }

  /** The loop starts with nonce 0, and its clock with the reading of that moment. */
  lemma LoopStarts(lib: Library, m: Miner, t: nat)
    requires t < |m.tasks| && m.tasks[t].phase == Loaded
    ensures var n := Step(lib, m, Take(t, Start));
            && OnlyLocals(m, n, t) && n.tasks[t].phase == Looping
            && n.tasks[t].nonce == 0 && n.tasks[t].startedAt == m.clock
            && n.tasks[t].snap == m.tasks[t].snap && n.tasks[t].attempts == m.tasks[t].attempts
  {
  }

  /** At the loop head a task ends exactly if the global token or its own token is cancelled, and
      otherwise waits for its turn. */
  lemma LoopHeadHeedsCancellation(lib: Library, m: Miner, t: nat)
    requires t < |m.tasks| && m.tasks[t].phase == Looping
    ensures var n := Step(lib, m, Take(t, Poll));
            && OnlyLocals(m, n, t)
            && (n.tasks[t].phase == Done <==> m.stopped || m.tasks[t].token in m.cancelled)
            && (n.tasks[t].phase == Armed <==> !m.stopped && m.tasks[t].token !in m.cancelled)
            && n.tasks[t] == m.tasks[t].(phase := n.tasks[t].phase)
  {
  }

  /** A waiting task can be ended by exactly the same two cancellations. */
  lemma WaitingHeedsCancellation(lib: Library, m: Miner, t: nat)
    requires t < |m.tasks| && m.tasks[t].phase == Armed
    ensures var n := Step(lib, m, Take(t, Stop));
            && OnlyLocals(m, n, t)
            && (n.tasks[t].phase == Done <==> m.stopped || m.tasks[t].token in m.cancelled)
            && (n.tasks[t].phase != Done ==> n == m)
  {
  }

  /** The next header is hashed: nonce as it stands, timestamp by the clock. If it meets the target it
      goes to validation, and otherwise the nonce moves on, back to 0 after 2^32-1. */
  lemma HashesOneHeader(lib: Library, c: Channel, single: bool, ls: seq<Label>, t: nat)
    requires var m := Run(lib, NewMiner(c, single), ls); t < |m.tasks| && m.tasks[t].phase == Armed
    ensures var m := Run(lib, NewMiner(c, single), ls);
            var n := Step(lib, m, Take(t, Work));
            var k := m.tasks[t];
            && OnlyLocals(m, n, t) && k.snap.Some? && k.startedAt <= m.clock
            && (var exact := k.snap.value.job.minNtime + (m.clock - k.startedAt) / 1_000_000_000;
                var ntime: u32 := if exact <= 0xFFFF_FFFF then exact else 0xFFFF_FFFF;
                && n.tasks[t].attempts == k.attempts + [Attempt(k.nonce, ntime, m.clock)]
                && n.tasks[t].snap == k.snap && n.tasks[t].startedAt == k.startedAt
                && if lib.meets(k.snap.value.job, k.snap.value.tip, k.snap.value.target, ntime, k.nonce)
                   then n.tasks[t].phase == Found(ntime) && n.tasks[t].nonce == k.nonce
                   else n.tasks[t].phase == Looping && n.tasks[t].nonce == (k.nonce + 1) % 0x1_0000_0000)
  {
    SearchSpace.RunKeepsInv(lib, NewMiner(c, single), ls);
    var m := Run(lib, NewMiner(c, single), ls);
    assert SearchSpace.TaskInv(lib, m.tasks[t], m.clock);
    hide SearchSpace.TaskInv, Run;
    WorkWrittenOut(lib, m, t);
    hide Step, OnlyLocals;
  }

  lemma WorkWrittenOut(lib: Library, m: Miner, t: nat)
    requires t < |m.tasks| && m.tasks[t].phase == Armed && m.tasks[t].snap.Some? && m.tasks[t].startedAt <= m.clock
    ensures var n := Step(lib, m, Take(t, Work));
            var k := m.tasks[t];
            var exact := k.snap.value.job.minNtime + (m.clock - k.startedAt) / 1_000_000_000;
            var ntime: u32 := if exact <= 0xFFFF_FFFF then exact else 0xFFFF_FFFF;
            && OnlyLocals(m, n, t)
            && n.tasks[t].attempts == k.attempts + [Attempt(k.nonce, ntime, m.clock)]
            && n.tasks[t].snap == k.snap && n.tasks[t].startedAt == k.startedAt
            && if lib.meets(k.snap.value.job, k.snap.value.tip, k.snap.value.target, ntime, k.nonce)
               then n.tasks[t].phase == Found(ntime) && n.tasks[t].nonce == k.nonce
               else n.tasks[t].phase == Looping && n.tasks[t].nonce == (k.nonce + 1) % 0x1_0000_0000
  {
    var k := m.tasks[t];
    ClampIsOneMinimum(k.snap.value.job.minNtime, ElapsedSeconds(k.startedAt, m.clock));
    hide ClampedNtime;
  }

  /** A share for a header that met the target has the channel's next number. If the channel accepts
      it, it is booked and the task holds it; if not, the task goes on with the next nonce; a poisoned
      lock ends the task. */
  lemma ValidatesTheShare(lib: Library, c: Channel, single: bool, ls: seq<Label>, t: nat)
    requires var m := Run(lib, NewMiner(c, single), ls); t < |m.tasks| && m.tasks[t].phase.Found?
    ensures var m := Run(lib, NewMiner(c, single), ls);
            var n := Step(lib, m, Take(t, Validate));
            var k := m.tasks[t];
            var a := m.channel.accounting;
            && k.snap.Some? && |n.tasks| == |m.tasks|
            && (var share := Share(a.lastSequence + 1, k.snap.value.job.job.id, k.nonce, k.phase.ntime);
                if m.poisoned then n.tasks[t].phase == Done && n.channel == m.channel
                else if lib.validates(m.channel, share)
                then && n.tasks[t] == k.(phase := Submitting(share))
                     && n.channel == m.channel.(accounting := a.(lastSequence := share.sequence,
                                                                 validated := a.validated + [share]))
                else && n.tasks[t] == k.(phase := Looping, nonce := n.tasks[t].nonce)
                     && n.tasks[t].nonce == (k.nonce + 1) % 0x1_0000_0000 && n.channel == m.channel)
  {
    SearchSpace.RunKeepsInv(lib, NewMiner(c, single), ls);
    var m := Run(lib, NewMiner(c, single), ls);
    assert SearchSpace.TaskInv(lib, m.tasks[t], m.clock);
    hide SearchSpace.TaskInv, Run;
  }

  /** A share that the queue takes is put at its end, in either mode; one it does not take is dropped.
      The task goes on with the next nonce, unless it has sent in single-submit mode. */
  lemma SendsTheShare(lib: Library, m: Miner, t: nat, ok: bool)
    requires t < |m.tasks| && m.tasks[t].phase.Submitting?
    ensures var n := Step(lib, m, Take(t, Send(ok)));
            var k := m.tasks[t];
            && n.upstream == m.upstream + (if ok then [Submission(t, k.phase.share)] else [])
            && n.channel == m.channel && n.single == m.single && |n.tasks| == |m.tasks|
            && if ok && m.single != None
               then n.tasks[t] == k.(phase := Sent(k.phase.share))
               else && n.tasks[t] == k.(phase := Looping, nonce := n.tasks[t].nonce)
                    && n.tasks[t].nonce == (k.nonce + 1) % 0x1_0000_0000
  {
  }

  /** Having sent in single-submit mode, the task cancels the token and ends. */
  lemma CancelsTheToken(lib: Library, m: Miner, t: nat)
    requires t < |m.tasks| && m.tasks[t].phase.Sent? && m.single != None
    ensures var n := Step(lib, m, Take(t, CancelSingle));
            && n.single == Some(true) && |n.tasks| == |m.tasks| && n.tasks[t] == m.tasks[t].(phase := Done)
            && n.channel == m.channel && n.upstream == m.upstream
  {
  }
}
