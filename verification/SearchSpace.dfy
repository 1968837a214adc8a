// What a task hashes: the nonce counts iterations modulo 2^32, the timestamp follows the clock
// from the job's minimum, and every share sent is a header the task hashed.
module SearchSpace {
  import opened Wrappers
  import opened ClientChannels
  import opened Clock
  import opened MiningTasks

  predicate InLoop(p: Phase) {
    p.Looping? || p.Armed? || p.Found? || p.Submitting? || p.Sent?
  }

  predicate BeforeSnapshot(p: Phase) {
    p.Spawned? || p.Entered?
  }

  /** The headers hashed so far: nonces in turn, timestamps clamped from a clock that never goes back. */
  ghost predicate AttemptsFollowClock(k: Task, clock: nat) {
    k.attempts != [] ==>
      && k.snap.Some? && k.snap.value.activatedAt <= k.startedAt <= clock
      && (forall i :: 0 <= i < |k.attempts| ==>
            && k.attempts[i].nonce == i % U32_VALUES
            && k.startedAt <= k.attempts[i].at <= clock
            && k.attempts[i].ntime == NtimeNow(k, k.attempts[i].at))
      && (forall i, j :: 0 <= i < j < |k.attempts| ==> k.attempts[i].at <= k.attempts[j].at)
  }

  predicate LastAttemptIs(k: Task, nonce: u32, ntime: u32) {
    k.attempts != [] && k.attempts[|k.attempts| - 1].nonce == nonce && k.attempts[|k.attempts| - 1].ntime == ntime
  }

  /** The header of this timestamp and nonce met the target of the task's snapshot. */
  predicate MeetsTarget(lib: Library, k: Task, ntime: u32, nonce: u32)
    requires k.snap.Some?
  {
    lib.meets(k.snap.value.job, k.snap.value.tip, k.snap.value.target, ntime, nonce)
  }

  /** The locals of a task agree with its phase. */
  ghost predicate LocalsMatchPhase(lib: Library, k: Task, clock: nat) {
    && (BeforeSnapshot(k.phase) ==> k.snap.None? && k.attempts == [])
    && (k.phase.Loaded? ==> k.snap.Some? && k.attempts == [])
    && (InLoop(k.phase) ==> k.snap.Some? && k.snap.value.activatedAt <= k.startedAt <= clock)
    && (k.phase.Looping? || k.phase.Armed? ==> k.nonce == |k.attempts| % U32_VALUES)
    && (k.phase.Found? ==> LastAttemptIs(k, k.nonce, k.phase.ntime) && MeetsTarget(lib, k, k.phase.ntime, k.nonce))
    && (k.phase.Submitting? || k.phase.Sent? ==>
          k.nonce == k.phase.share.nonce && LastAttemptIs(k, k.nonce, k.phase.share.ntime)
          && MeetsTarget(lib, k, k.phase.share.ntime, k.nonce) && k.phase.share.jobId == k.snap.value.job.job.id)
    && (k.snap.Some? ==> k.snap.value.activatedAt <= clock)
  }

  ghost predicate TaskInv(lib: Library, k: Task, clock: nat) {
    AttemptsFollowClock(k, clock) && LocalsMatchPhase(lib, k, clock)
  }

  /** The task hashed the share's header, on the job of its snapshot, and it met the target. */
  predicate Hashed(lib: Library, k: Task, s: Share) {
    k.snap.Some? && s.jobId == k.snap.value.job.job.id && MeetsTarget(lib, k, s.ntime, s.nonce)
    && exists i :: 0 <= i < |k.attempts| && k.attempts[i].nonce == s.nonce && k.attempts[i].ntime == s.ntime
  }

  ghost predicate Inv(lib: Library, m: Miner) {
    && m.activatedAt <= m.clock
    && (forall t :: 0 <= t < |m.tasks| ==> TaskInv(lib, m.tasks[t], m.clock))
    && (forall j :: 0 <= j < |m.upstream| ==>
          m.upstream[j].task < |m.tasks| && Hashed(lib, m.tasks[m.upstream[j].task], m.upstream[j].share))
  }

  /** One more attempt keeps the nonce in step with the iteration count. */
  lemma NonceAdvances(n: nat)
    ensures WrappingIncrement(n % U32_VALUES) == (n + 1) % U32_VALUES
  {
  }

  lemma AttemptKeepsOrder(lib: Library, k: Task, now: nat)
    requires k.phase.Armed? && TaskInv(lib, k, now)
    ensures AttemptsFollowClock(WithAttempt(k, NtimeNow(k, now), now), now)
  {
    hide ClampedNtime, ElapsedSeconds;
    var k' := WithAttempt(k, NtimeNow(k, now), now);
    forall i | 0 <= i < |k'.attempts|
      ensures k'.attempts[i].nonce == i % U32_VALUES && k'.startedAt <= k'.attempts[i].at <= now
      ensures k'.attempts[i].ntime == NtimeNow(k', k'.attempts[i].at)
    {
      if i < |k.attempts| { assert k'.attempts[i] == k.attempts[i]; }
    }
  }

  lemma AttemptKeepsTaskInv(lib: Library, k: Task, now: nat)
    requires k.phase.Armed? && TaskInv(lib, k, now)
    ensures var ntime := NtimeNow(k, now); var k' := WithAttempt(k, ntime, now);
            (MeetsTarget(lib, k, ntime, k.nonce) ==> TaskInv(lib, k'.(phase := Found(ntime)), now))
            && TaskInv(lib, NextTurn(k'), now)
  {
    hide ClampedNtime, ElapsedSeconds;
    AttemptKeepsOrder(lib, k, now);
    NonceAdvances(|k.attempts|);
  }

  lemma AttemptKeepsHashed(lib: Library, k: Task, k': Task, s: Share)
    requires Hashed(lib, k, s) && k'.snap == k.snap && k.attempts <= k'.attempts
    ensures Hashed(lib, k', s)
  {
    var i :| 0 <= i < |k.attempts| && k.attempts[i].nonce == s.nonce && k.attempts[i].ntime == s.ntime;
    assert k'.attempts[i] == k.attempts[i];
  }

  lemma WorkKeepsTaskInv(lib: Library, m: Miner, t: nat)
    requires t < |m.tasks| && m.tasks[t].phase.Armed? && TaskInv(lib, m.tasks[t], m.clock)
    ensures TaskInv(lib, WorkStep(lib, m, t).tasks[t], m.clock)
    ensures forall s :: Hashed(lib, m.tasks[t], s) ==> Hashed(lib, WorkStep(lib, m, t).tasks[t], s)
  {
    var k := m.tasks[t];
    var k' := WorkStep(lib, m, t).tasks[t];
    assert k.snap.Some? && k.startedAt <= m.clock;
    hide NtimeNow;
    hide TaskInv;
    AttemptKeepsTaskInv(lib, k, m.clock);
    forall s | Hashed(lib, k, s) ensures Hashed(lib, k', s) {
      AttemptKeepsHashed(lib, k, k', s);
    }
    hide Hashed;
  }

  lemma NextTurnKeepsTaskInv(lib: Library, k: Task, clock: nat)
    requires TaskInv(lib, k, clock) && (k.phase.Found? || k.phase.Submitting?)
    ensures TaskInv(lib, NextTurn(k), clock)
  {
    NonceAdvances(|k.attempts| - 1);
  }

  lemma ValidateKeepsTaskInv(lib: Library, m: Miner, t: nat)
    requires t < |m.tasks| && m.tasks[t].phase.Found? && TaskInv(lib, m.tasks[t], m.clock)
    ensures TaskInv(lib, ValidateStep(lib, m, t).tasks[t], m.clock)
    ensures forall s :: Hashed(lib, m.tasks[t], s) ==> Hashed(lib, ValidateStep(lib, m, t).tasks[t], s)
  {
    hide ClampedNtime, ElapsedSeconds;
    NextTurnKeepsTaskInv(lib, m.tasks[t], m.clock);
  }

  lemma SendKeepsTaskInv(lib: Library, m: Miner, t: nat, ok: bool)
    requires t < |m.tasks| && m.tasks[t].phase.Submitting? && TaskInv(lib, m.tasks[t], m.clock)
    ensures TaskInv(lib, SendStep(m, t, ok).tasks[t], m.clock)
    ensures forall s :: Hashed(lib, m.tasks[t], s) ==> Hashed(lib, SendStep(m, t, ok).tasks[t], s)
    ensures Hashed(lib, m.tasks[t], m.tasks[t].phase.share)
  {
    hide ClampedNtime, ElapsedSeconds;
    NextTurnKeepsTaskInv(lib, m.tasks[t], m.clock);
  }

  lemma EarlyStepsKeepTaskInv(lib: Library, m: Miner, t: nat)
    requires t < |m.tasks| && TaskInv(lib, m.tasks[t], m.clock) && m.activatedAt <= m.clock
    ensures m.tasks[t].phase.Spawned? ==> TaskInv(lib, EnterStep(m, t).tasks[t], m.clock)
    ensures m.tasks[t].phase.Entered? ==> TaskInv(lib, LoadStep(m, t).tasks[t], m.clock)
    ensures m.tasks[t].phase.Loaded? ==> TaskInv(lib, StartStep(m, t).tasks[t], m.clock)
    ensures BeforeSnapshot(m.tasks[t].phase) || m.tasks[t].phase.Loaded? ==> m.tasks[t].attempts == []
  {
    hide ClampedNtime, ElapsedSeconds;
  }

  lemma LateStepsKeepTaskInv(lib: Library, m: Miner, t: nat)
    requires t < |m.tasks| && TaskInv(lib, m.tasks[t], m.clock)
    ensures m.tasks[t].phase.Looping? ==> TaskInv(lib, PollStep(m, t).tasks[t], m.clock)
    ensures TaskInv(lib, StopStep(m, t).tasks[t], m.clock)
    ensures TaskInv(lib, CancelSingleStep(m, t).tasks[t], m.clock)
    ensures forall s :: Hashed(lib, m.tasks[t], s) ==> Hashed(lib, PollStep(m, t).tasks[t], s)
    ensures forall s :: Hashed(lib, m.tasks[t], s) ==> Hashed(lib, StopStep(m, t).tasks[t], s)
    ensures forall s :: Hashed(lib, m.tasks[t], s) ==> Hashed(lib, CancelSingleStep(m, t).tasks[t], s)
  {
    hide ClampedNtime, ElapsedSeconds;
  }

  /** After a step of task t, its invariant holds and what it had hashed it still has. */
  ghost predicate KeepsTask(lib: Library, m: Miner, n: Miner, t: nat)
    requires t < |m.tasks|
  {
    && |n.tasks| == |m.tasks| && TaskInv(lib, n.tasks[t], m.clock)
    && (forall s :: Hashed(lib, m.tasks[t], s) ==> Hashed(lib, n.tasks[t], s))
  }

  lemma OwnStepsKeepTask(lib: Library, m: Miner, t: nat)
    requires t < |m.tasks| && TaskInv(lib, m.tasks[t], m.clock) && m.activatedAt <= m.clock
    ensures KeepsTask(lib, m, m, t)
    ensures m.tasks[t].phase.Spawned? ==> KeepsTask(lib, m, EnterStep(m, t), t)
    ensures m.tasks[t].phase.Entered? ==> KeepsTask(lib, m, LoadStep(m, t), t)
    ensures m.tasks[t].phase.Loaded? ==> KeepsTask(lib, m, StartStep(m, t), t)
    ensures m.tasks[t].phase.Looping? ==> KeepsTask(lib, m, PollStep(m, t), t)
    ensures KeepsTask(lib, m, StopStep(m, t), t) && KeepsTask(lib, m, CancelSingleStep(m, t), t)
  {
    EarlyStepsKeepTaskInv(lib, m, t);
    LateStepsKeepTaskInv(lib, m, t);
    hide TaskInv;
  }

  lemma WorkKeepsTask(lib: Library, m: Miner, t: nat)
    requires t < |m.tasks| && TaskInv(lib, m.tasks[t], m.clock) && m.tasks[t].phase.Armed?
    ensures KeepsTask(lib, m, WorkStep(lib, m, t), t)
  {
    WorkKeepsTaskInv(lib, m, t);
    WorkFrame(lib, m, t);
    hide TaskInv, Hashed, WorkStep;
  }

  lemma ValidateKeepsTask(lib: Library, m: Miner, t: nat)
    requires t < |m.tasks| && TaskInv(lib, m.tasks[t], m.clock) && m.tasks[t].phase.Found?
    ensures KeepsTask(lib, m, ValidateStep(lib, m, t), t)
  {
    ValidateKeepsTaskInv(lib, m, t);
    ValidateFrame(lib, m, t);
    hide TaskInv, Hashed, ValidateStep;
  }

  lemma SendKeepsTask(lib: Library, m: Miner, t: nat, ok: bool)
    requires t < |m.tasks| && TaskInv(lib, m.tasks[t], m.clock) && m.tasks[t].phase.Submitting?
    ensures KeepsTask(lib, m, SendStep(m, t, ok), t)
  {
    SendKeepsTaskInv(lib, m, t, ok);
    SendFrame(m, t, ok);
    hide TaskInv, Hashed, SendStep;
  }

  /** A task step keeps that task's invariant and only adds attempts. */
  lemma ActKeepsTaskInv(lib: Library, m: Miner, t: nat, a: Act)
    requires t < |m.tasks| && TaskInv(lib, m.tasks[t], m.clock) && m.activatedAt <= m.clock
    ensures KeepsTask(lib, m, ActStep(lib, m, t, a), t)
  {
    OwnStepsKeepTask(lib, m, t);
    var p := m.tasks[t].phase;
    if p.Armed? { WorkKeepsTask(lib, m, t); }
    if p.Found? { ValidateKeepsTask(lib, m, t); }
    if p.Submitting? && a.Send? { SendKeepsTask(lib, m, t, a.ok); }
    hide KeepsTask, TaskInv, EnterStep, LoadStep, StartStep, PollStep, WorkStep, ValidateStep, SendStep;
    hide CancelSingleStep, StopStep;
  }

  /** A task step puts at most one share on the queue, one whose header the task has hashed. */
  lemma ActSendsHashed(lib: Library, m: Miner, t: nat, a: Act)
    requires t < |m.tasks| && TaskInv(lib, m.tasks[t], m.clock)
    ensures var n := ActStep(lib, m, t, a);
            n.upstream == m.upstream
            || exists s :: Hashed(lib, m.tasks[t], s) && n.upstream == m.upstream + [Submission(t, s)]
  {
    if a.Send? && m.tasks[t].phase.Submitting? { SendKeepsTaskInv(lib, m, t, a.ok); }
    hide TaskInv, Hashed;
  }

  lemma StepKeepsInv(lib: Library, m: Miner, l: Label)
    requires Inv(lib, m)
    ensures Inv(lib, Step(lib, m, l))
  {
    hide ClampedNtime, ElapsedSeconds;
    match l {
      case Write(r) => hide Apply;
      case Take(t, a) =>
        if t < |m.tasks| {
          ActFrame(lib, m, t, a);
          ActKeepsTaskInv(lib, m, t, a);
          ActSendsHashed(lib, m, t, a);
        }
        hide ActStep, TaskInv, Hashed;
      case _ =>
    }
  }

  lemma {:induction false} RunKeepsInv(lib: Library, m: Miner, ls: seq<Label>)
    requires Inv(lib, m)
    ensures Inv(lib, Run(lib, m, ls))
    decreases |ls|
  {
    if ls != [] {
      StepKeepsInv(lib, m, ls[0]);
      RunKeepsInv(lib, Step(lib, m, ls[0]), ls[1..]);
    }
  }

  lemma NtimeNeverGoesBack(k: Task, clock: nat, i: nat, j: nat)
    requires AttemptsFollowClock(k, clock) && i <= j < |k.attempts|
    ensures k.attempts[i].ntime <= k.attempts[j].ntime
  {
    var a, b := k.attempts[i], k.attempts[j];
    assert ElapsedSeconds(k.startedAt, a.at) <= ElapsedSeconds(k.startedAt, b.at);
    ClampIsOneMinimum(k.snap.value.job.minNtime, ElapsedSeconds(k.startedAt, a.at));
    ClampIsOneMinimum(k.snap.value.job.minNtime, ElapsedSeconds(k.startedAt, b.at));
  }

  /** Every header hashed in any run: iteration i uses nonce i modulo 2^32, and a timestamp that is
      the job's minimum plus the seconds since the loop began, capped at 2^32-1. It never goes back,
      and never runs ahead of the clock measured from the message that activated the job. */
  lemma HeadersFollowTheClock(lib: Library, c: Channel, single: bool, ls: seq<Label>, t: nat, i: nat)
    requires var m := Run(lib, NewMiner(c, single), ls); t < |m.tasks| && i < |m.tasks[t].attempts|
    ensures var k := Run(lib, NewMiner(c, single), ls).tasks[t];
            var a := k.attempts[i];
            && k.snap.Some? && k.snap.value.activatedAt <= k.startedAt <= a.at
            && a.nonce == i % U32_VALUES
            && (var exact := k.snap.value.job.minNtime + ElapsedSeconds(k.startedAt, a.at);
                a.ntime == if exact < U32_MAX then exact else U32_MAX)
            && a.ntime <= k.snap.value.job.minNtime + ElapsedSeconds(k.snap.value.activatedAt, a.at)
            && (forall h :: 0 <= h < i ==> k.attempts[h].ntime <= a.ntime)
  {
    RunKeepsInv(lib, NewMiner(c, single), ls);
    var m := Run(lib, NewMiner(c, single), ls);
    var k := m.tasks[t];
    assert TaskInv(lib, k, m.clock);
    ClampIsOneMinimum(k.snap.value.job.minNtime, ElapsedSeconds(k.startedAt, k.attempts[i].at));
    forall h | 0 <= h < i ensures k.attempts[h].ntime <= k.attempts[i].ntime {
      NtimeNeverGoesBack(k, m.clock, h, i);
    }
  }

  lemma WindowHasEveryNonce(k: Task, clock: nat, from: nat, nonce: u32)
    requires AttemptsFollowClock(k, clock) && from + U32_VALUES <= |k.attempts|
    ensures exists i :: from <= i < from + U32_VALUES && k.attempts[i].nonce == nonce
                        && forall j :: from <= j < from + U32_VALUES && k.attempts[j].nonce == nonce ==> j == i
  {
    var r := from % U32_VALUES;
    var i := if r <= nonce then from - r + nonce else from - r + nonce + U32_VALUES;
    assert i % U32_VALUES == nonce;
    assert from <= i < from + U32_VALUES && k.attempts[i].nonce == nonce;
    forall j | from <= j < from + U32_VALUES && k.attempts[j].nonce == nonce ensures j == i {
      assert j % U32_VALUES == nonce;
    }
  }

  /** Any 2^32 consecutive iterations of a task, in any run, try every nonce exactly once. */
  lemma WindowTriesEveryNonceOnce(
    lib: Library, c: Channel, single: bool, ls: seq<Label>, t: nat, from: nat, nonce: u32)
    requires var m := Run(lib, NewMiner(c, single), ls);
             t < |m.tasks| && from + U32_VALUES <= |m.tasks[t].attempts|
    ensures var k := Run(lib, NewMiner(c, single), ls).tasks[t];
            exists i :: from <= i < from + U32_VALUES && k.attempts[i].nonce == nonce
                        && forall j :: from <= j < from + U32_VALUES && k.attempts[j].nonce == nonce ==> j == i
  {
    RunKeepsInv(lib, NewMiner(c, single), ls);
    var m := Run(lib, NewMiner(c, single), ls);
    assert TaskInv(lib, m.tasks[t], m.clock);
    WindowHasEveryNonce(m.tasks[t], m.clock, from, nonce);
  }

  /** No two iterations hash the same nonce under the same timestamp. */
  ghost predicate NoHeaderRepeats(k: Task) {
    forall i, j :: 0 <= i < j < |k.attempts| ==>
      k.attempts[i].nonce != k.attempts[j].nonce || k.attempts[i].ntime != k.attempts[j].ntime
  }

  /** By the time the nonces wrap around, the timestamp has moved on. */
  ghost predicate NtimeMovesEveryLap(k: Task) {
    forall i, j :: 0 <= i && j == i + U32_VALUES && j < |k.attempts| ==> k.attempts[i].ntime < k.attempts[j].ntime
  }

  lemma LapArithmetic(i: nat, j: nat)
    requires i < j
    ensures j == i + U32_VALUES ==> i % U32_VALUES == j % U32_VALUES
    ensures i % U32_VALUES == j % U32_VALUES ==> i + U32_VALUES <= j
  {
  }

  lemma RepeatsAreWithinALap(k: Task, clock: nat)
    requires AttemptsFollowClock(k, clock)
    ensures NoHeaderRepeats(k) <==> NtimeMovesEveryLap(k)
  {
    hide NtimeNow;
    if NoHeaderRepeats(k) {
      forall i, j | 0 <= i && j == i + U32_VALUES && j < |k.attempts|
        ensures k.attempts[i].ntime < k.attempts[j].ntime
      {
        NtimeNeverGoesBack(k, clock, i, j);
        LapArithmetic(i, j);
        assert k.attempts[i].nonce == k.attempts[j].nonce;
      }
    }
    if NtimeMovesEveryLap(k) {
      forall i, j | 0 <= i < j < |k.attempts| && k.attempts[i].nonce == k.attempts[j].nonce
        ensures k.attempts[i].ntime != k.attempts[j].ntime
      {
        LapArithmetic(i, j);
        var lap := i + U32_VALUES;
        assert k.attempts[i].ntime < k.attempts[lap].ntime;
        NtimeNeverGoesBack(k, clock, lap, j);
      }
    }
  }

  /** A task of any run never hashes a header twice exactly when each lap of the nonces ends on a later
      timestamp than it began on. */
  lemma HeadersRepeatExactlyWithinALap(lib: Library, c: Channel, single: bool, ls: seq<Label>, t: nat)
    requires t < |Run(lib, NewMiner(c, single), ls).tasks|
    ensures var k := Run(lib, NewMiner(c, single), ls).tasks[t]; NoHeaderRepeats(k) <==> NtimeMovesEveryLap(k)
  {
    RunKeepsInv(lib, NewMiner(c, single), ls);
    var m := Run(lib, NewMiner(c, single), ls);
    assert TaskInv(lib, m.tasks[t], m.clock);
    RepeatsAreWithinALap(m.tasks[t], m.clock);
  }

  /** In the clock's terms: no header repeats in any run if no second of a task's clock spans more
      than 2^32 of its iterations and the timestamp has not reached its cap. */
  lemma HeadersDoNotRepeatInAnyRun(lib: Library, c: Channel, single: bool, ls: seq<Label>, t: nat)
    requires var m := Run(lib, NewMiner(c, single), ls);
             && t < |m.tasks|
             && (var k := m.tasks[t];
                 && (forall i :: 0 <= i < |k.attempts| ==>
                      k.attempts[i].ntime < U32_MAX && k.startedAt <= k.attempts[i].at)
                 && (forall i, j :: 0 <= i < j < |k.attempts| &&
                        ElapsedSeconds(k.startedAt, k.attempts[i].at) == ElapsedSeconds(k.startedAt, k.attempts[j].at)
                        ==> j - i < U32_VALUES))
    ensures NoHeaderRepeats(Run(lib, NewMiner(c, single), ls).tasks[t])
  {
    RunKeepsInv(lib, NewMiner(c, single), ls);
    var m := Run(lib, NewMiner(c, single), ls);
    var k := m.tasks[t];
    assert TaskInv(lib, k, m.clock);
    forall i, j | 0 <= i && j == i + U32_VALUES && j < |k.attempts| ensures k.attempts[i].ntime < k.attempts[j].ntime {
      var minimum := k.snap.value.job.minNtime;
      var e, f := ElapsedSeconds(k.startedAt, k.attempts[i].at), ElapsedSeconds(k.startedAt, k.attempts[j].at);
      assert e != f && e <= f;
      ClampIsOneMinimum(minimum, e);
      ClampIsOneMinimum(minimum, f);
    }
    RepeatsAreWithinALap(k, m.clock);
  }

  /** Every share on the upstream queue, in any run, is a header its task hashed, on the job of
      that task's snapshot. */
  lemma SubmissionsWereHashed(lib: Library, c: Channel, single: bool, ls: seq<Label>, j: nat)
    requires j < |Run(lib, NewMiner(c, single), ls).upstream|
    ensures var m := Run(lib, NewMiner(c, single), ls);
            m.upstream[j].task < |m.tasks| && Hashed(lib, m.tasks[m.upstream[j].task], m.upstream[j].share)
  {
    RunKeepsInv(lib, NewMiner(c, single), ls);
  }
}
