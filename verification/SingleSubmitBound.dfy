// The bound on single-submit mode is exact: once no further task can pass the test and send, the most
// that can ever be sent is what was sent plus one share for each task that is not bound to end first,
// and some run attains it; before that two shares are always possible. At most one share is sent when
// sending and cancelling are one step and no superseded task takes a step.
module SingleSubmitBound {
  import opened Wrappers
  import opened ClientChannels
  import opened MiningTasks
  import opened SingleSubmit
  import opened Clock
  import opened Witnesses
  import SearchSpace
  import SnapshotCoherence

  /** A task past the test that may still send: its share is validated; or the lock is sound and its
      turn of the loop has begun, or no cancellation is pending that would end it at its next poll. */
  predicate MaySend(m: Miner, k: Task) {
    || k.phase.Submitting?
    || (!m.poisoned && (k.phase.Armed? || k.phase.Found? || (InFlight(k.phase) && !CancelSeen(m, k))))
  }

  function MaySendTasks(m: Miner): set<nat> {
    set t | 0 <= t < |m.tasks| && MaySend(m, m.tasks[t])
  }

  /** Shares sent, plus the tasks that may still send one. */
  function Potential(m: Miner): nat {
    |m.upstream| + |MaySendTasks(m)|
  }

  /** No task will pass the test and then send: the token is cancelled, or whatever passes the test
      ends at its next poll, or at its snapshot. */
  predicate Shut(m: Miner) {
    m.single == Some(true) || m.stopped || m.poisoned
  }

  lemma ActGivesNoNewChance(lib: Library, m: Miner, t: nat, a: Act)
    requires t < |m.tasks| && m.single.Some? && Shut(m)
    ensures var n := ActStep(lib, m, t, a);
            |n.tasks| == |m.tasks| && (MaySend(n, n.tasks[t]) ==> MaySend(m, m.tasks[t]))
  {
    ActFrame(lib, m, t, a);
  }

  lemma StepKeepsShut(lib: Library, m: Miner, l: Label)
    requires Inv(m) && Shut(m)
    ensures Shut(Step(lib, m, l))
  {
    hide Apply;
    if l.Take? {
      ActFrame(lib, m, l.task, l.act);
      if l.task < |m.tasks| { ActMoves(lib, m, l.task, l.act); }
      hide ActStep;
    }
  }

  lemma StepKeepsPotential(lib: Library, m: Miner, l: Label)
    requires Inv(m) && Shut(m)
    ensures Potential(Step(lib, m, l)) <= Potential(m)
  {
    hide Apply;
    var n := Step(lib, m, l);
    match l {
      case Take(t, a) =>
        ActFrame(lib, m, t, a);
        if t < |m.tasks| { ActMoves(lib, m, t, a); ActGivesNoNewChance(lib, m, t, a); }
        hide ActStep;
        if n.upstream != m.upstream {
          assert t in MaySendTasks(m);
          assert MaySendTasks(n) <= MaySendTasks(m) - {t};
          SubsetCount(MaySendTasks(n), MaySendTasks(m) - {t});
        } else {
          SubsetCount(MaySendTasks(n), MaySendTasks(m));
        }
      case _ => SubsetCount(MaySendTasks(n), MaySendTasks(m));
    }
  }

  lemma {:induction false} RunKeepsPotential(lib: Library, m: Miner, ls: seq<Label>)
    requires Inv(m) && Shut(m)
    ensures Potential(Run(lib, m, ls)) <= Potential(m)
    decreases |ls|
  {
    if ls != [] {
      StepKeepsPotential(lib, m, ls[0]);
      StepKeepsInv(lib, m, ls[0]);
      StepKeepsShut(lib, m, ls[0]);
      RunKeepsPotential(lib, Step(lib, m, ls[0]), ls[1..]);
    }
  }

  // ----- every such task can be driven to send -----

  predicate Known(c: Channel) {
    c.active.Some? && c.tip.Some?
  }

  /** A task takes its snapshot only of a channel that has work, and no token is cancelled before. */
  ghost predicate WorkIsKnown(m: Miner) {
    && (m.single == Some(true) ==> Known(m.channel))
    && (forall t :: 0 <= t < |m.tasks| && (m.tasks[t].phase.Loaded? || SearchSpace.InLoop(m.tasks[t].phase)) ==>
          Known(m.channel))
  }

  lemma ActKeepsWorkKnown(lib: Library, m: Miner, t: nat, a: Act)
    requires WorkIsKnown(m)
    ensures WorkIsKnown(ActStep(lib, m, t, a))
  {
    ActFrame(lib, m, t, a);
    hide NtimeNow, NextShare, WithAttempt;
  }

  lemma {:induction false} RunKeepsWorkKnown(lib: Library, m: Miner, ls: seq<Label>)
    requires WorkIsKnown(m)
    ensures WorkIsKnown(Run(lib, m, ls))
    decreases |ls|
  {
    if ls != [] {
      assert WorkIsKnown(Step(lib, m, ls[0])) by {
        hide ActStep, Apply;
        match ls[0] {
          case Write(r) => ApplyFrame(lib, m.channel, r);
          case Take(t, a) => ActKeepsWorkKnown(lib, m, t, a);
          case _ =>
        }
      }
      hide Step;
      RunKeepsWorkKnown(lib, Step(lib, m, ls[0]), ls[1..]);
    }
  }

  ghost predicate OthersUntouched(m: Miner, n: Miner, t: nat) {
    |n.tasks| == |m.tasks| && (forall i :: 0 <= i < |m.tasks| && i != t ==> n.tasks[i] == m.tasks[i])
  }

  predicate Early(p: Phase) {
    p.Entered? || p.Loaded? || p.Looping?
  }

  function EarlyTasks(m: Miner): set<nat> {
    set t | 0 <= t < |m.tasks| && MaySend(m, m.tasks[t]) && Early(m.tasks[t].phase)
  }

  /** A task that no cancellation stops reaches the second poll of its loop, whatever the library says. */
  lemma ArmOne(lib: Library, m: Miner, t: nat)
    requires t < |m.tasks| && MaySend(m, m.tasks[t]) && Early(m.tasks[t].phase) && Known(m.channel)
    ensures var n := Run(lib, m, ArmingLabels(t));
            n == m.(tasks := n.tasks) && OthersUntouched(m, n, t) && n.tasks[t].phase.Armed?
  {
    var ls := ArmingLabels(t);
    var m1 := Step(lib, m, ls[0]);
    assert m1 == m.(tasks := m1.tasks) && OthersUntouched(m, m1, t) && m1.tasks[t].token == m.tasks[t].token;
    assert m1.tasks[t].phase.Loaded? || m1.tasks[t].phase.Looping?;
    var m2 := Step(lib, m1, ls[1]);
    assert m2 == m.(tasks := m2.tasks) && OthersUntouched(m, m2, t) && m2.tasks[t].token == m.tasks[t].token;
    assert m2.tasks[t].phase.Looping?;
    var m3 := Step(lib, m2, ls[2]);
    assert m3 == m.(tasks := m3.tasks) && OthersUntouched(m, m3, t) && m3.tasks[t].phase.Armed?;
    hide Step;
    assert ls[1..] == [ls[1], ls[2]] && ls[1..][1..] == [ls[2]] && ls[1..][1..][1..] == [];
    assert Run(lib, m3, []) == m3 && Run(lib, m2, [ls[2]]) == m3 && Run(lib, m1, ls[1..]) == m3;
  }

  /** The rest of the way to the second poll; a label whose step is past leaves the task alone. */
  function ArmingLabels(t: nat): seq<Label> {
    [Take(t, Load), Take(t, Start), Take(t, Poll)]
  }

  lemma {:induction false} ArmAll(lib: Library, m: Miner) returns (ls: seq<Label>)
    requires EarlyTasks(m) != {} ==> Known(m.channel)
    ensures var n := Run(lib, m, ls);
            && n == m.(tasks := n.tasks) && EarlyTasks(n) == {} && MaySendTasks(n) == MaySendTasks(m)
    decreases |EarlyTasks(m)|
  {
    if EarlyTasks(m) == {} {
      ls := [];
    } else {
      var t :| t in EarlyTasks(m);
      ArmOne(lib, m, t);
      var n := Run(lib, m, ArmingLabels(t));
      hide Run;
      assert forall i :: 0 <= i < |m.tasks| && i != t ==> n.tasks[i] == m.tasks[i];
      assert EarlyTasks(n) == EarlyTasks(m) - {t} && MaySendTasks(n) == MaySendTasks(m);
      hide EarlyTasks, MaySendTasks, ArmingLabels;
      var rest := ArmAll(lib, n);
      ls := ArmingLabels(t) + rest;
      RunConcat(lib, m, ArmingLabels(t), rest);
    }
  }

  /** Headers at the last timestamp meet their target, and a channel that has had this many shares
      acknowledged accepts every job and every share. */
  ghost predicate Obliging(lib: Library, acknowledged: nat) {
    && (forall job, tip, target, nonce :: lib.meets(job, tip, target, U32_MAX, nonce))
    && (forall c: Channel, s :: c.accounting.acknowledged >= acknowledged ==> lib.validates(c, s))
    && (forall c: Channel, j :: c.accounting.acknowledged >= acknowledged ==> lib.acceptsJob(c, j))
  }

  /** Every task that may send has begun its turn, at the last timestamp, on such a channel. */
  ghost predicate Primed(m: Miner, acknowledged: nat) {
    && m.single.Some? && EarlyTasks(m) == {}
    && (m.poisoned || m.channel.accounting.acknowledged >= acknowledged)
    && (forall t :: 0 <= t < |m.tasks| && (m.tasks[t].phase.Armed? || m.tasks[t].phase.Found?) ==>
          m.tasks[t].snap.Some? && m.tasks[t].startedAt <= m.clock
          && U32_MAX <= ElapsedSeconds(m.tasks[t].startedAt, m.clock))
  }

  const END_OF_TIME: nat := U32_VALUES * SECOND

  /** Completes the call in progress, acknowledges a share, and lets the clock run out. */
  const PRIMING := [Revoke, Respawn, Write(Acknowledge(1, 0)), Tick(END_OF_TIME)]

  lemma LastTimestamp(startedAt: nat, clock: nat)
    requires startedAt <= clock
    ensures U32_MAX <= ElapsedSeconds(startedAt, clock + END_OF_TIME)
  {
  }

  lemma PrimingRun(lib: Library, m: Miner)
    ensures var n := Run(lib, m, PRIMING);
            && m.tasks <= n.tasks && (forall t :: |m.tasks| <= t < |n.tasks| ==> n.tasks[t].phase.Spawned?)
            && n.poisoned == m.poisoned && n.upstream == m.upstream && n.single == m.single
            && n.clock == m.clock + END_OF_TIME && m.cancelled <= n.cancelled && n.stopped == m.stopped
            && (n.poisoned || n.channel.accounting.acknowledged == m.channel.accounting.acknowledged + 1)
  {
    var ls := PRIMING;
    var m1 := Step(lib, m, Revoke);
    var m2 := Step(lib, m1, Respawn);
    assert m2.handler.Idle?
           && m2 == m.(cancelled := m2.cancelled, tasks := m2.tasks, current := m2.current, handler := Idle);
    assert m.tasks <= m2.tasks && (forall t :: |m.tasks| <= t < |m2.tasks| ==> m2.tasks[t].phase.Spawned?);
    var m3 := Step(lib, m2, Write(Acknowledge(1, 0)));
    assert m3 == m2.(channel := m3.channel);
    var m4 := Step(lib, m3, Tick(END_OF_TIME));
    assert m4 == m3.(clock := m.clock + END_OF_TIME);
    hide Step;
    assert ls[1..][1..][1..][1..] == [];
    assert Run(lib, m4, []) == m4 && Run(lib, m3, ls[1..][1..][1..]) == m4;
    assert Run(lib, m2, ls[1..][1..]) == m4 && Run(lib, m1, ls[1..]) == m4;
  }

  lemma Prime(lib: Library, m: Miner)
    requires m.single.Some? && EarlyTasks(m) == {} && SearchSpace.Inv(lib, m)
    ensures var n := Run(lib, m, PRIMING);
            && Primed(n, m.channel.accounting.acknowledged + 1)
            && n.upstream == m.upstream && MaySendTasks(n) == MaySendTasks(m)
  {
    PrimingRun(lib, m);
    var n := Run(lib, m, PRIMING);
    hide Run;
    forall t | 0 <= t < |n.tasks| && (n.tasks[t].phase.Armed? || n.tasks[t].phase.Found?)
      ensures n.tasks[t].snap.Some? && n.tasks[t].startedAt <= n.clock
      ensures U32_MAX <= ElapsedSeconds(n.tasks[t].startedAt, n.clock)
    {
      assert n.tasks[t] == m.tasks[t] && SearchSpace.TaskInv(lib, m.tasks[t], m.clock);
      LastTimestamp(m.tasks[t].startedAt, m.clock);
    }
    hide SearchSpace.Inv, ElapsedSeconds;
    forall t | 0 <= t < |m.tasks|
      ensures n.tasks[t] == m.tasks[t] && (MaySend(n, n.tasks[t]) <==> MaySend(m, m.tasks[t]))
      ensures !(MaySend(m, m.tasks[t]) && Early(m.tasks[t].phase))
    {
      assert MaySend(m, m.tasks[t]) && Early(m.tasks[t].phase) ==> t in EarlyTasks(m);
    }
    assert forall t :: |m.tasks| <= t < |n.tasks| ==> !MaySend(n, n.tasks[t]);
    hide MaySend;
    assert EarlyTasks(n) == {} && MaySendTasks(n) == MaySendTasks(m);
  }

  function ActsLeft(p: Phase): nat {
    match p
    case Armed => 3
    case Found(_) => 2
    case Submitting(_) => 1
    case _ => 0
  }

  function NextAct(p: Phase): Act {
    match p
    case Armed => Work
    case Found(_) => Validate
    case _ => Send(true)
  }

  /** A step of task t towards its send, after which n is as primed as m was. */
  ghost predicate Advances(m: Miner, n: Miner, t: nat)
    requires t < |m.tasks|
  {
    && n == m.(tasks := n.tasks, upstream := n.upstream, validators := n.validators,
               channel := m.channel.(accounting := n.channel.accounting))
    && n.channel.accounting.acknowledged == m.channel.accounting.acknowledged
    && OthersUntouched(m, n, t) && !Early(n.tasks[t].phase)
    && n.tasks[t].snap == m.tasks[t].snap && n.tasks[t].startedAt == m.tasks[t].startedAt
    && ActsLeft(n.tasks[t].phase) == ActsLeft(m.tasks[t].phase) - 1
    && (if ActsLeft(m.tasks[t].phase) == 1 then |n.upstream| == |m.upstream| + 1 && !MaySend(n, n.tasks[t])
        else n.upstream == m.upstream && MaySend(n, n.tasks[t]))
  }

  lemma WorkAdvances(lib: Library, a: nat, m: Miner, t: nat)
    requires Obliging(lib, a) && Primed(m, a) && t < |m.tasks| && m.tasks[t].phase.Armed? && !m.poisoned
    ensures Advances(m, WorkStep(lib, m, t), t)
  {
    var k := m.tasks[t];
    ClampIsOneMinimum(k.snap.value.job.minNtime, ElapsedSeconds(k.startedAt, m.clock));
    assert NtimeNow(k, m.clock) == U32_MAX;
    hide NtimeNow, EarlyTasks;
  }

  lemma LastActsAdvance(lib: Library, a: nat, m: Miner, t: nat)
    requires Obliging(lib, a) && Primed(m, a) && t < |m.tasks|
    ensures m.tasks[t].phase.Found? && !m.poisoned ==> Advances(m, ValidateStep(lib, m, t), t)
    ensures m.tasks[t].phase.Submitting? ==> Advances(m, SendStep(m, t, true), t)
  {
    hide EarlyTasks;
  }

  lemma NextActAdvances(lib: Library, a: nat, m: Miner, t: nat)
    requires Obliging(lib, a) && Primed(m, a) && t < |m.tasks| && MaySend(m, m.tasks[t])
    ensures var n := Step(lib, m, Take(t, NextAct(m.tasks[t].phase)));
            Advances(m, n, t) && Primed(n, a)
  {
    var k := m.tasks[t];
    assert !Early(k.phase) by { assert Early(k.phase) ==> t in EarlyTasks(m); }
    if k.phase.Armed? { WorkAdvances(lib, a, m, t); }
    LastActsAdvance(lib, a, m, t);
    hide WorkStep, ValidateStep, SendStep, Obliging;
    var n := Step(lib, m, Take(t, NextAct(k.phase)));
    assert Advances(m, n, t);
    hide Step;
    assert EarlyTasks(n) <= EarlyTasks(m);
    hide EarlyTasks, ElapsedSeconds, MaySend;
  }

  lemma {:induction false} TaskCanSend(lib: Library, a: nat, m: Miner, t: nat) returns (ls: seq<Label>)
    requires Obliging(lib, a) && Primed(m, a) && t < |m.tasks| && MaySend(m, m.tasks[t])
    ensures var n := Run(lib, m, ls);
            && Primed(n, a) && OthersUntouched(m, n, t) && !MaySend(n, n.tasks[t])
            && n.poisoned == m.poisoned && n.cancelled == m.cancelled && n.stopped == m.stopped
            && |n.upstream| == |m.upstream| + 1
    decreases ActsLeft(m.tasks[t].phase)
  {
    var l := Take(t, NextAct(m.tasks[t].phase));
    var n := Step(lib, m, l);
    NextActAdvances(lib, a, m, t);
    hide Step, Primed, Obliging;
    if ActsLeft(m.tasks[t].phase) == 1 {
      ls := [l];
      assert ls[1..] == [] && Run(lib, n, []) == n;
    } else {
      var rest := TaskCanSend(lib, a, n, t);
      ls := [l] + rest;
      assert ls[0] == l && ls[1..] == rest;
    }
  }

  lemma {:induction false} PrimedTasksSend(lib: Library, a: nat, m: Miner) returns (ls: seq<Label>)
    requires Obliging(lib, a) && Primed(m, a)
    ensures |Run(lib, m, ls).upstream| == Potential(m)
    decreases |MaySendTasks(m)|
  {
    hide Primed, Obliging;
    if MaySendTasks(m) == {} {
      ls := [];
    } else {
      var t :| t in MaySendTasks(m);
      var first := TaskCanSend(lib, a, m, t);
      var n := Run(lib, m, first);
      assert MaySendTasks(n) == MaySendTasks(m) - {t};
      var rest := PrimedTasksSend(lib, a, n);
      ls := first + rest;
      RunConcat(lib, m, first, rest);
    }
  }

  /** With an obliging library, some continuation sends as much as the potential allows. */
  lemma AllCanSend(lib: Library, a: nat, m: Miner) returns (ls: seq<Label>)
    requires Obliging(lib, a) && a <= m.channel.accounting.acknowledged + 1
    requires m.single.Some? && (EarlyTasks(m) != {} ==> Known(m.channel)) && SearchSpace.Inv(lib, m)
    ensures |Run(lib, m, ls).upstream| == Potential(m)
  {
    var arm := ArmAll(lib, m);
    var n := Run(lib, m, arm);
    SearchSpace.RunKeepsInv(lib, m, arm);
    Prime(lib, n);
    var p := Run(lib, n, PRIMING);
    assert Primed(p, a);
    hide Run, SearchSpace.Inv, Obliging, Primed, EarlyTasks, MaySendTasks;
    var send := PrimedTasksSend(lib, a, p);
    RunConcat(lib, m, arm, PRIMING);
    RunConcat(lib, m, arm + PRIMING, send);
    ls := arm + PRIMING + send;
  }

  // ----- while the token is sound two tasks can be sent past the test -----

  /** Between calls, with nothing to stop a task, on a channel that accepts every job and share. */
  ghost predicate Willing(m: Miner, a: nat) {
    && m.single == Some(false) && m.handler.Idle? && !m.poisoned && !m.stopped
    && a <= m.channel.accounting.acknowledged && SnapshotCoherence.TokensInOrder(m)
  }

  /** A job made active spawns a task, which can be brought to the second poll of its loop. */
  lemma NewTaskArms(lib: Library, a: nat, m: Miner, r: Request)
    requires Willing(m, a) && Activates(r) && Apply(lib, m.channel, r).Some?
    requires var c := Apply(lib, m.channel, r).value;
             Known(c) && c.accounting == m.channel.accounting
    ensures var n := Run(lib, m, CallLabels(r) + ArmLabels(|m.tasks|));
            && Willing(n, a) && n.channel == Apply(lib, m.channel, r).value
            && |n.tasks| == |m.tasks| + 1 && n.tasks[|m.tasks|].phase.Armed?
            && (forall t :: 0 <= t < |m.tasks| ==> n.tasks[t] == m.tasks[t])
  {
    var t := |m.tasks|;
    HandleIsUninterruptedCall(lib, m, r);
    RunConcat(lib, m, CallLabels(r), ArmLabels(t));
    var m1 := Handle(lib, m, r).0;
    SnapshotCoherence.RunKeepsTokens(lib, m, CallLabels(r));
    assert m1.tasks == m.tasks + [NewTask(m.current + 1)] && m1.cancelled == m.cancelled + {m.current};
    assert !CancelSeen(m1, m1.tasks[t]);
    hide Apply, Handle, Run, CallLabels, ArmLabels;
    TaskArms(lib, m1, t);
  }

  /** Completes the call in progress and brings the channel into the state where it accepts all. */
  const SETTLING := [Revoke, Respawn, Write(Acknowledge(1, 0))]

  lemma Settle(lib: Library, a: nat, m: Miner)
    requires m.single == Some(false) && !m.poisoned && !m.stopped && SnapshotCoherence.TokensInOrder(m)
    requires a <= m.channel.accounting.acknowledged + 1
    ensures Willing(Run(lib, m, SETTLING), a)
  {
    var ls := SETTLING;
    var m1 := Step(lib, m, Revoke);
    var m2 := Step(lib, m1, Respawn);
    var m3 := Step(lib, m2, Write(Acknowledge(1, 0)));
    assert m2.handler.Idle? && m2.channel == m.channel && m3 == m2.(channel := m3.channel);
    assert ls[1..] == [Respawn, Write(Acknowledge(1, 0))] && ls[1..][1..] == [Write(Acknowledge(1, 0))];
    assert ls[1..][1..][1..] == [];
    assert Run(lib, m3, []) == m3 && Run(lib, m2, ls[1..][1..]) == m3 && Run(lib, m1, ls[1..]) == m3;
    assert Run(lib, m, ls) == m3;
    SnapshotCoherence.RunKeepsTokens(lib, m, ls);
  }

  /** A stored job, a chain tip that activates it, and a job that is active at once. */
  lemma TwoTasksArm(lib: Library, a: nat, m: Miner) returns (ls: seq<Label>)
    requires Obliging(lib, a) && Willing(m, a)
    ensures var n := Run(lib, m, ls);
            Willing(n, a) && Known(n.channel) && exists t :: 0 <= t && t + 1 < |n.tasks| && TwoArmed(n, t)
  {
    var store, tip := NewJob(FIRST_JOB), PrevHash(FIRST_TIP);
    var m1 := Handle(lib, m, store).0;
    HandleIsUninterruptedCall(lib, m, store);
    assert Willing(m1, a) && FIRST_TIP.jobId in m1.channel.future by {
      hide SnapshotCoherence.TokensInOrder;
      SnapshotCoherence.RunKeepsTokens(lib, m, CallLabels(store));
    }
    NewTaskArms(lib, a, m1, tip);
    var first := CallLabels(tip) + ArmLabels(|m1.tasks|);
    var m2 := Run(lib, m1, first);
    assert Known(m2.channel);
    assert m2.channel.accounting.acknowledged >= a;
    assert Apply(lib, m2.channel, ACTIVE_JOB).Some?;
    NewTaskArms(lib, a, m2, ACTIVE_JOB);
    var second := CallLabels(ACTIVE_JOB) + ArmLabels(|m2.tasks|);
    assert TwoArmed(Run(lib, m2, second), |m1.tasks|);
    ls := CallLabels(store) + first + second;
    RunConcat(lib, m, CallLabels(store) + first, second);
    RunConcat(lib, m, CallLabels(store), first);
    hide Run, Apply, Handle, CallLabels, ArmLabels, Willing, Obliging;
  }

  predicate TwoArmed(m: Miner, t: nat) {
    t + 1 < |m.tasks| && m.tasks[t].phase.Armed? && m.tasks[t + 1].phase.Armed?
  }

  /** While the token is sound and nothing ends the tasks, some continuation sends two shares. */
  lemma TwoCanSend(lib: Library, a: nat, m: Miner) returns (ls: seq<Label>)
    requires Obliging(lib, a) && a <= m.channel.accounting.acknowledged + 1
    requires m.single.Some? && !Shut(m) && SnapshotCoherence.TokensInOrder(m) && SearchSpace.Inv(lib, m)
    ensures |Run(lib, m, ls).upstream| >= 2
  {
    assert !m.single.value;
    hide Run, Obliging, SearchSpace.Inv, SnapshotCoherence.TokensInOrder;
    Settle(lib, a, m);
    var m1 := Run(lib, m, SETTLING);
    var arm := TwoTasksArm(lib, a, m1);
    var m2 := Run(lib, m1, arm);
    SearchSpace.RunKeepsInv(lib, m, SETTLING);
    SearchSpace.RunKeepsInv(lib, m1, arm);
    var send := AllCanSend(lib, a, m2);
    var t :| 0 <= t && t + 1 < |m2.tasks| && TwoArmed(m2, t);
    assert {t, t + 1} <= MaySendTasks(m2);
    SubsetCount({t, t + 1}, MaySendTasks(m2));
    ls := SETTLING + arm + send;
    RunConcat(lib, m, SETTLING + arm, send);
    RunConcat(lib, m, SETTLING, arm);
  }

  lemma InvForMoreMet(lib: Library, lib': Library, m: Miner)
    requires SearchSpace.Inv(lib, m)
    requires forall job, tip, target, ntime, nonce ::
               lib.meets(job, tip, target, ntime, nonce) ==> lib'.meets(job, tip, target, ntime, nonce)
    ensures SearchSpace.Inv(lib', m)
  {
    forall t | 0 <= t < |m.tasks| ensures SearchSpace.TaskInv(lib', m.tasks[t], m.clock) {
      assert SearchSpace.TaskInv(lib, m.tasks[t], m.clock);
    }
    hide SearchSpace.TaskInv;
  }

  // ----- verdicts already given stand -----

  /** The two libraries have given the same verdicts, so far, in this run. */
  ghost predicate SameSoFar(lib: Library, lib': Library, m: Miner, ls: seq<Label>)
    decreases |ls|
  {
    ls == [] || (Step(lib', m, ls[0]) == Step(lib, m, ls[0]) && SameSoFar(lib, lib', Step(lib, m, ls[0]), ls[1..]))
  }

  /** No task has hashed a header at the last timestamp there is. */
  ghost predicate BelowCap(m: Miner) {
    forall t, i :: 0 <= t < |m.tasks| && 0 <= i < |m.tasks[t].attempts| ==> m.tasks[t].attempts[i].ntime < U32_MAX
  }

  /** The library turns obliging at the last timestamp, and once this many shares are acknowledged. */
  function TurnsObliging(lib: Library, acknowledged: nat): Library {
    lib.(meets := (job: ActiveJob, tip: ChainTip, target: nat, ntime: u32, nonce: u32) =>
           ntime == U32_MAX || lib.meets(job, tip, target, ntime, nonce),
         validates := (c: Channel, s: Share) => c.accounting.acknowledged >= acknowledged || lib.validates(c, s),
         acceptsJob := (c: Channel, j: JobMessage) => c.accounting.acknowledged >= acknowledged || lib.acceptsJob(c, j))
  }

  lemma ActAgrees(lib: Library, a: nat, m: Miner, t: nat, act: Act)
    requires m.channel.accounting.acknowledged < a && BelowCap(ActStep(lib, m, t, act))
    ensures ActStep(TurnsObliging(lib, a), m, t, act) == ActStep(lib, m, t, act) && BelowCap(m)
    ensures ActStep(lib, m, t, act).channel.accounting.acknowledged == m.channel.accounting.acknowledged
  {
    ActFrame(lib, m, t, act);
    if t < |m.tasks| { AttemptsStay(lib, m, t, act); }
    var n := ActStep(lib, m, t, act);
    forall j, i | 0 <= j < |m.tasks| && 0 <= i < |m.tasks[j].attempts| ensures m.tasks[j].attempts[i].ntime < U32_MAX {
      assert n.tasks[j].attempts[i] == m.tasks[j].attempts[i];
    }
    if act.Work? && t < |m.tasks| && m.tasks[t].phase.Armed? {
      WorkAgrees(lib, a, m, t);
    }
    hide NtimeNow, WorkStep, WithAttempt;
  }

  lemma AttemptsStay(lib: Library, m: Miner, t: nat, act: Act)
    requires t < |m.tasks|
    ensures |ActStep(lib, m, t, act).tasks| == |m.tasks|
            && m.tasks[t].attempts <= ActStep(lib, m, t, act).tasks[t].attempts
  {
    hide NtimeNow, NextShare;
  }

  lemma WorkAgrees(lib: Library, a: nat, m: Miner, t: nat)
    requires t < |m.tasks| && BelowCap(WorkStep(lib, m, t))
    ensures WorkStep(TurnsObliging(lib, a), m, t) == WorkStep(lib, m, t)
  {
    var k := m.tasks[t];
    if k.snap.Some? && k.startedAt <= m.clock {
      var ntime := NtimeNow(k, m.clock);
      hide NtimeNow;
      var k' := WorkStep(lib, m, t).tasks[t];
      assert k'.attempts == k.attempts + [Attempt(k.nonce, ntime, m.clock)];
      assert k'.attempts[|k.attempts|].ntime == ntime;
    }
  }

  lemma StepAgrees(lib: Library, a: nat, m: Miner, l: Label)
    requires BelowCap(Step(lib, m, l)) && Step(lib, m, l).channel.accounting.acknowledged < a
    ensures Step(TurnsObliging(lib, a), m, l) == Step(lib, m, l)
    ensures BelowCap(m) && m.channel.accounting.acknowledged < a
  {
    match l {
      case Take(t, act) =>
        TakeKeepsAcknowledged(lib, m, t, act);
        ActAgrees(lib, a, m, t, act);
        hide ActStep, TurnsObliging, BelowCap;
      case Respawn => assert m.tasks <= Step(lib, m, l).tasks;
      case _ =>
    }
  }

  lemma {:induction false} VerdictsStand(lib: Library, a: nat, m: Miner, ls: seq<Label>)
    requires BelowCap(Run(lib, m, ls)) && Run(lib, m, ls).channel.accounting.acknowledged < a
    ensures SameSoFar(lib, TurnsObliging(lib, a), m, ls)
    ensures BelowCap(m) && m.channel.accounting.acknowledged < a
    decreases |ls|
  {
    if ls != [] {
      VerdictsStand(lib, a, Step(lib, m, ls[0]), ls[1..]);
      StepAgrees(lib, a, m, ls[0]);
      hide Step, BelowCap, TurnsObliging;
    }
  }

  lemma TakeKeepsAcknowledged(lib: Library, m: Miner, t: nat, act: Act)
    ensures ActStep(lib, m, t, act).channel.accounting.acknowledged == m.channel.accounting.acknowledged
  {
  }

  /** No more than one share has been sent or may still be, and no task will pass the test and send. */
  predicate Limited(m: Miner) {
    Potential(m) <= 1 && Shut(m)
  }

  /** With an obliging library, a miner that is not limited can send two shares. */
  lemma UnlimitedCanSendTwo(lib: Library, a: nat, m: Miner) returns (ls: seq<Label>)
    requires Obliging(lib, a) && a <= m.channel.accounting.acknowledged + 1 && !Limited(m)
    requires Inv(m) && WorkIsKnown(m) && SnapshotCoherence.TokensInOrder(m) && SearchSpace.Inv(lib, m)
    ensures |Run(lib, m, ls).upstream| >= 2
  {
    if Shut(m) {
      assert EarlyTasks(m) != {} ==> m.single == Some(true);
      ls := AllCanSend(lib, a, m);
    } else {
      ls := TwoCanSend(lib, a, m);
    }
  }

  /** In whatever state a single-submit miner is, it is sure to stay at one share exactly when it is
      limited: the shares sent and the tasks that may still send are one at most, and the token is
      cancelled, or the miner stopped, or its lock poisoned. This is so with any verdicts from then
      on; and, unless some header had the last timestamp there is, also with verdicts that agree with
      all those given before. */
  lemma SingleSubmitExactly(lib: Library, c: Channel, before: seq<Label>)
    ensures var m := Run(lib, NewMiner(c, true), before);
            && ((forall lib': Library, after :: |Run(lib', m, after).upstream| <= 1) <==> Limited(m))
            && (BelowCap(m) ==>
                  ((forall lib': Library, after :: SameSoFar(lib, lib', NewMiner(c, true), before) ==>
                      |Run(lib', m, after).upstream| <= 1)
                   <==> Limited(m)))
  {
    var m0 := NewMiner(c, true);
    var m := Run(lib, m0, before);
    RunKeepsInv(lib, m0, before);
    SearchSpace.RunKeepsInv(lib, m0, before);
    SnapshotCoherence.RunKeepsInv(lib, m0, before);
    RunKeepsWorkKnown(lib, m0, before);
    if Limited(m) {
      forall lib': Library, after: seq<Label> ensures |Run(lib', m, after).upstream| <= 1 {
        RunKeepsPotential(lib', m, after);
      }
    } else {
      hide SearchSpace.Inv, Inv, WorkIsKnown, SnapshotCoherence.TokensInOrder, Limited;
      var a := m.channel.accounting.acknowledged + 1;
      InvForMoreMet(lib, AGREEABLE, m);
      var ls := UnlimitedCanSendTwo(AGREEABLE, a, m);
      assert |Run(AGREEABLE, m, ls).upstream| >= 2;
      if BelowCap(m) {
        var lib' := TurnsObliging(lib, a);
        VerdictsStand(lib, a, m0, before);
        InvForMoreMet(lib, lib', m);
        var ls' := UnlimitedCanSendTwo(lib', a, m);
        assert |Run(lib', m, ls').upstream| >= 2;
      }
    }
  }

  // ----- no fixed bound holds -----

  /** n tasks are waiting at the loop's second poll, where a cancellation may still lose. */
  ghost predicate Crowd(m: Miner, n: nat) {
    && m.single == Some(false) && m.handler.Idle? && !m.poisoned && !m.stopped && m.upstream == []
    && m.channel.active.Some? && m.channel.tip.Some? && SnapshotCoherence.TokensInOrder(m)
    && |MaySendTasks(m)| == n
    && (forall t :: 0 <= t < |m.tasks| && MaySend(m, m.tasks[t]) ==> m.tasks[t].phase.Armed?)
  }

  const ACTIVE_JOB := NewJob(JobMessage(2, Some(7), 0))

  function ArmLabels(t: nat): seq<Label> {
    [Take(t, Enter), Take(t, Load), Take(t, Start), Take(t, Poll)]
  }

  lemma TaskArms(lib: Library, m: Miner, t: nat)
    requires t < |m.tasks| && m.tasks[t].phase.Spawned? && !CancelSeen(m, m.tasks[t])
    requires m.single == Some(false) && !m.poisoned && m.channel.active.Some? && m.channel.tip.Some?
    ensures var n := Run(lib, m, ArmLabels(t));
            n == m.(tasks := n.tasks) && OthersUntouched(m, n, t) && n.tasks[t].phase.Armed?
            && n.tasks[t].token == m.tasks[t].token
  {
    var m1 := EnterStep(m, t);
    var m2 := LoadStep(m1, t);
    var m3 := StartStep(m2, t);
    var m4 := PollStep(m3, t);
    assert m1.tasks[t].phase.Entered? && m1 == m.(tasks := m1.tasks);
    assert m2.tasks[t].phase.Loaded? && m2 == m.(tasks := m2.tasks);
    assert m3.tasks[t].phase.Looping? && m3 == m.(tasks := m3.tasks);
    assert m4.tasks[t].phase.Armed? && m4 == m.(tasks := m4.tasks);
    var ls := ArmLabels(t);
    assert ls[1..][1..][1..][1..] == [];
    assert Run(lib, m3, ls[1..][1..][1..]) == Run(lib, m4, []);
    assert Run(lib, m2, ls[1..][1..]) == m4;
    assert Run(lib, m1, ls[1..]) == m4;
  }

  lemma ActivationKeepsCrowd(m: Miner, n: nat)
    requires Crowd(m, n)
    ensures var m1 := Handle(AGREEABLE, m, ACTIVE_JOB).0;
            Crowd(m1, n) && |m1.tasks| == |m.tasks| + 1 && m1.tasks[|m.tasks|].phase.Spawned?
            && !CancelSeen(m1, m1.tasks[|m.tasks|])
  {
    var m1 := Handle(AGREEABLE, m, ACTIVE_JOB).0;
    assert m1.tasks == m.tasks + [NewTask(m.current + 1)];
    assert m1.cancelled == m.cancelled + {m.current} && m1.current == m.current + 1;
    hide Handle;
    assert forall t :: 0 <= t < |m.tasks| ==> m1.tasks[t] == m.tasks[t];
    assert MaySendTasks(m1) == MaySendTasks(m) by {
      assert !MaySend(m1, m1.tasks[|m.tasks|]);
    }
  }

  lemma ArmingJoinsCrowd(m: Miner, m': Miner, n: nat, t: nat)
    requires Crowd(m, n) && t < |m.tasks| && m.tasks[t].phase.Spawned?
    requires m' == m.(tasks := m'.tasks) && OthersUntouched(m, m', t) && m'.tasks[t].phase.Armed?
    requires m'.tasks[t].token == m.tasks[t].token
    ensures Crowd(m', n + 1)
  {
    assert SnapshotCoherence.TokensInOrder(m');
    assert MaySend(m', m'.tasks[t]) && !MaySend(m, m.tasks[t]);
    assert forall i :: 0 <= i < |m.tasks| && i != t ==> (MaySend(m', m'.tasks[i]) <==> MaySend(m, m.tasks[i]));
    hide MaySend, SnapshotCoherence.TokensInOrder, OthersUntouched;
    assert MaySendTasks(m') == MaySendTasks(m) + {t};
  }

  lemma CrowdGrows(m: Miner, n: nat)
    requires Crowd(m, n)
    ensures Crowd(Run(AGREEABLE, m, CallLabels(ACTIVE_JOB) + ArmLabels(|m.tasks|)), n + 1)
  {
    var t := |m.tasks|;
    HandleIsUninterruptedCall(AGREEABLE, m, ACTIVE_JOB);
    RunConcat(AGREEABLE, m, CallLabels(ACTIVE_JOB), ArmLabels(t));
    hide Run, Handle;
    var m1 := Handle(AGREEABLE, m, ACTIVE_JOB).0;
    ActivationKeepsCrowd(m, n);
    TaskArms(AGREEABLE, m1, t);
    ArmingJoinsCrowd(m1, Run(AGREEABLE, m1, ArmLabels(t)), n, t);
  }

  lemma {:induction false} CrowdOf(n: nat) returns (ls: seq<Label>)
    ensures Crowd(Run(AGREEABLE, NewMiner(OPENED, true), ls), n)
  {
    if n == 0 {
      ls := FIRST_LABELS;
      FirstActivationIsARun(true);
      SnapshotCoherence.RunKeepsInv(AGREEABLE, NewMiner(OPENED, true), ls);
      var m := Run(AGREEABLE, NewMiner(OPENED, true), ls);
      assert MaySendTasks(m) == {};
    } else {
      var before := CrowdOf(n - 1);
      var m := Run(AGREEABLE, NewMiner(OPENED, true), before);
      CrowdGrows(m, n - 1);
      var more := CallLabels(ACTIVE_JOB) + ArmLabels(|m.tasks|);
      RunConcat(AGREEABLE, NewMiner(OPENED, true), before, more);
      ls := before + more;
    }
  }

  /** For every n some run of a single-submit miner sends n shares: jobs may be activated faster
      than the first task finds its share, and none of the superseded tasks tests the token again. */
  lemma SingleSubmitCanSendAnyNumber(n: nat)
    ensures exists lib: Library, c: Channel, ls: seq<Label> :: |Run(lib, NewMiner(c, true), ls).upstream| == n
  {
    var before := CrowdOf(n);
    var m := Run(AGREEABLE, NewMiner(OPENED, true), before);
    SearchSpace.RunKeepsInv(AGREEABLE, NewMiner(OPENED, true), before);
    var after := AllCanSend(AGREEABLE, 0, m);
    RunConcat(AGREEABLE, NewMiner(OPENED, true), before, after);
    assert |Run(AGREEABLE, NewMiner(OPENED, true), before + after).upstream| == n;
  }

  // ----- when one share is the limit -----

  /** Only the newest task takes steps, and a successful send is followed at once by the
      cancellation of the single-submit token. */
  ghost predicate Disciplined(lib: Library, m: Miner, ls: seq<Label>)
    decreases |ls|
  {
    if ls == [] then true else
    var n := Step(lib, m, ls[0]);
    && (ls[0].Take? ==> ls[0].task == |m.tasks| - 1)
    && (if ls[0].Take? && ls[0].act == Send(true)
        then |ls| > 1 && ls[1] == Take(ls[0].task, CancelSingle) && Disciplined(lib, Step(lib, n, ls[1]), ls[2..])
        else Disciplined(lib, n, ls[1..]))
  }

  ghost predicate AtMostOneSent(m: Miner) {
    && Inv(m) && |m.upstream| <= 1
    && (m.tasks != [] ==> !m.tasks[|m.tasks| - 1].phase.Sent?)
    && (m.upstream != [] ==>
          m.single == Some(true) && (m.tasks != [] ==> !InFlight(m.tasks[|m.tasks| - 1].phase)))
  }

  lemma QuietStepKeepsLimit(lib: Library, m: Miner, l: Label)
    requires AtMostOneSent(m) && (l.Take? ==> l.task == |m.tasks| - 1 && l.act != Send(true))
    ensures AtMostOneSent(Step(lib, m, l))
  {
    StepKeepsInv(lib, m, l);
    hide Apply;
    match l {
      case Take(t, a) =>
        ActFrame(lib, m, t, a);
        ActMoves(lib, m, t, a);
        OnlySendSends(lib, m, t, a);
        hide ActStep;
      case _ =>
    }
  }

  lemma OnlySendSends(lib: Library, m: Miner, t: nat, a: Act)
    requires t < |m.tasks| && a != Send(true)
    ensures var n := ActStep(lib, m, t, a);
            |n.tasks| == |m.tasks| && n.upstream == m.upstream
            && (n.tasks[t].phase.Sent? ==> m.tasks[t].phase.Sent?)
  {
  }

  lemma SendAndCancelKeepLimit(lib: Library, m: Miner, t: nat)
    requires AtMostOneSent(m) && t == |m.tasks| - 1
    ensures AtMostOneSent(Step(lib, Step(lib, m, Take(t, Send(true))), Take(t, CancelSingle)))
  {
    var n := Step(lib, m, Take(t, Send(true)));
    StepKeepsInv(lib, m, Take(t, Send(true)));
    StepKeepsInv(lib, n, Take(t, CancelSingle));
    ActFrame(lib, m, t, Send(true));
    ActFrame(lib, n, t, CancelSingle);
    hide Inv;
  }

  /** If sending and cancelling are one step and a superseded task takes no further step, a
      single-submit miner sends at most one share in its whole life. */
  lemma {:induction false} DisciplinedRunsSendOnce(lib: Library, m: Miner, ls: seq<Label>)
    requires AtMostOneSent(m) && Disciplined(lib, m, ls)
    ensures |Run(lib, m, ls).upstream| <= 1
    decreases |ls|
  {
    if ls != [] {
      var n := Step(lib, m, ls[0]);
      if ls[0].Take? && ls[0].act == Send(true) {
        SendAndCancelKeepLimit(lib, m, ls[0].task);
        assert ls[1..][1..] == ls[2..];
        assert Run(lib, m, ls) == Run(lib, Step(lib, n, ls[1]), ls[2..]);
        DisciplinedRunsSendOnce(lib, Step(lib, n, ls[1]), ls[2..]);
      } else {
        QuietStepKeepsLimit(lib, m, ls[0]);
        DisciplinedRunsSendOnce(lib, n, ls[1..]);
      }
    }
  }

  lemma DisciplinedMinerSendsOnce(lib: Library, c: Channel, ls: seq<Label>)
    requires Disciplined(lib, NewMiner(c, true), ls)
    ensures |Run(lib, NewMiner(c, true), ls).upstream| <= 1
  {
    DisciplinedRunsSendOnce(lib, NewMiner(c, true), ls);
  }
}
