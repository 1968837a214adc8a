// One channel miner as the source keeps it: the channel behind its lock, the current cancellation
// token and the tasks spawned so far. Its methods are the handler calls of the mining-task protocol,
// the pieces of a task between its waits, and the whole task among whatever others do meanwhile.
module ChannelMiners {
  import opened Wrappers
  import opened ClientChannels
  import opened MiningTasks
  import opened Clock

  class ChannelMiner {
    var channel: Channel
    var poisoned: bool
    var minerToken: nat
    var cancelledTokens: set<nat>
    var singleSubmitToken: Option<bool>
    var globalCancelled: bool
    var tasks: seq<Task>
    var validators: seq<nat>
    var upstream: seq<Submission>
    var clock: nat
    var activatedAt: nat

    function View(): Miner
      reads this
    {
      Miner(channel, poisoned, minerToken, cancelledTokens, singleSubmitToken, globalCancelled, tasks,
            validators, upstream, Idle, clock, activatedAt)
    }

    constructor (c: Channel, singleSubmit: bool)
      ensures View() == NewMiner(c, singleSubmit)
      ensures singleSubmitToken == (if singleSubmit then Some(false) else None)
      ensures channel == c && tasks == [] && upstream == [] && !poisoned && !globalCancelled
    {
      channel, poisoned, minerToken, cancelledTokens := c, false, 0, {};
      singleSubmitToken := if singleSubmit then Some(false) else None;
      globalCancelled, tasks, validators, upstream, clock, activatedAt := false, [], [], [], 0, 0;
    }

    /** The size a group compares, or None when the lock is poisoned. */
    method FullExtranonceSize() returns (size: Option<nat>)
      ensures size == if poisoned then None
                      else Some(|channel.prefix| + if channel.kind.Extended? then channel.kind.rollable else 0)
    {
      if poisoned {
        return None;
      }
      return Some(ClientChannels.FullExtranonceSize(channel));
    }

    /** Writes the channel under its lock. */
    method Write(lib: Library, r: Request) returns (reply: Reply)
      modifies this
      ensures poisoned == old(poisoned)
      ensures View() == WriteStep(lib, old(View()), r).(handler := Idle)
      ensures reply == if poisoned then Poisoned else if Apply(lib, old(channel), r).Some? then Accepted else Refused
    {
      if poisoned {
        return Poisoned;
      }
      var written := Apply(lib, channel, r);
      match written {
        case None => return Refused;
        case Some(c) =>
          channel := c;
          if Activates(r) {
            activatedAt := clock;
          }
          return Accepted;
      }
    }

    /** Cancels the task of the past job, if any, and spawns one for the active job. */
    method RespawnMiningTask()
      modifies this
      ensures View() == RespawnStep(RevokeStep(old(View())))
    {
      if minerToken !in cancelledTokens {
        cancelledTokens := cancelledTokens + {minerToken};
      }
      minerToken := minerToken + 1;
      tasks := tasks + [NewTask(minerToken)];
    }

    method OnNewMiningJob(lib: Library, job: JobMessage) returns (reply: Reply)
      modifies this
      ensures (View(), reply) == Handle(lib, old(View()), NewJob(job))
    {
      reply := Write(lib, NewJob(job));
      if reply.Accepted? && job.minNtime.Some? {
        RespawnMiningTask();
      }
    }

    method OnGroupChannelJob(lib: Library, job: JobMessage) returns (reply: Reply)
      modifies this
      ensures (View(), reply) == Handle(lib, old(View()), GroupJob(job))
    {
      reply := Write(lib, GroupJob(job));
      if reply.Accepted? && job.minNtime.Some? {
        RespawnMiningTask();
      }
    }

    method OnNewExtendedMiningJob(lib: Library, job: JobMessage) returns (reply: Reply)
      modifies this
      ensures (View(), reply) == Handle(lib, old(View()), ExtendedJob(job))
    {
      reply := Write(lib, ExtendedJob(job));
      if reply.Accepted? && job.minNtime.Some? {
        RespawnMiningTask();
      }
    }

    method OnSetNewPrevHash(lib: Library, p: PrevHashMessage) returns (reply: Reply)
      modifies this
      ensures (View(), reply) == Handle(lib, old(View()), PrevHash(p))
    {
      reply := Write(lib, PrevHash(p));
      if reply.Accepted? {
        RespawnMiningTask();
      }
    }

    method SetTarget(lib: Library, target: nat) returns (reply: Reply)
      modifies this
      ensures (View(), reply) == Handle(lib, old(View()), Target(target))
    {
      reply := Write(lib, Target(target));
    }

    method SetExtranoncePrefix(lib: Library, prefix: Bytes) returns (reply: Reply)
      modifies this
      ensures (View(), reply) == Handle(lib, old(View()), Prefix(prefix))
    {
      reply := Write(lib, Prefix(prefix));
    }

    method OnShareAcknowledgement(lib: Library, count: nat, work: nat) returns (reply: Reply)
      modifies this
      ensures (View(), reply) == Handle(lib, old(View()), Acknowledge(count, work))
    {
      reply := Write(lib, Acknowledge(count, work));
    }

    method OnShareRejection(lib: Library, code: string) returns (reply: Reply)
      modifies this
      ensures (View(), reply) == Handle(lib, old(View()), Reject(code))
    {
      reply := Write(lib, Reject(code));
    }

    /** One handler call, whichever request it carries. */
    method Answer(lib: Library, r: Request) returns (reply: Reply)
      modifies this
      ensures (View(), reply) == Handle(lib, old(View()), r)
    {
      hide Handle, View;
      match r {
        case NewJob(j) => reply := OnNewMiningJob(lib, j);
        case GroupJob(j) => reply := OnGroupChannelJob(lib, j);
        case ExtendedJob(j) => reply := OnNewExtendedMiningJob(lib, j);
        case PrevHash(p) => reply := OnSetNewPrevHash(lib, p);
        case Target(t) => reply := SetTarget(lib, t);
        case Prefix(p) => reply := SetExtranoncePrefix(lib, p);
        case Acknowledge(n, w) => reply := OnShareAcknowledgement(lib, n, w);
        case Reject(code) => reply := OnShareRejection(lib, code);
      }
    }

    // ----- the pieces of a task between two points where others may run -----

    predicate Cancelled(t: nat)
      requires t < |tasks|
      reads this
    {
      globalCancelled || tasks[t].token in cancelledTokens
    }

    method EndTask(t: nat)
      requires t < |tasks|
      modifies this`tasks
      ensures View() == WithTask(old(View()), t, old(tasks)[t].(phase := Done)) && tasks[t].phase.Done?
    {
      tasks := tasks[t := tasks[t].(phase := Done)];
    }

    method CheckSingleSubmit(ghost lib: Library, t: nat) returns (admitted: bool)
      requires t < |tasks| && tasks[t].phase.Spawned?
      modifies this`tasks
      ensures View() == ActStep(lib, old(View()), t, Enter) && |tasks| == old(|tasks|)
      ensures if admitted then tasks[t].phase.Entered? else tasks[t].phase.Done?
      ensures SameWork(old(tasks[t]), tasks[t])
    {
      admitted := singleSubmitToken != Some(true);
      if admitted {
        tasks := tasks[t := tasks[t].(phase := Entered, passed := true)];
      } else {
        EndTask(t);
      }
    }

    /** Copies job, chain tip and target under the read lock; the two expected values may panic. */
    method TakeSnapshot(ghost lib: Library, t: nat) returns (taken: bool)
      requires t < |tasks| && tasks[t].phase.Entered?
      modifies this`tasks
      ensures View() == ActStep(lib, old(View()), t, Load) && |tasks| == old(|tasks|) && taken == tasks[t].phase.Loaded?
      ensures !taken ==> tasks[t].phase.Done? || tasks[t].phase.Panicked?
      ensures taken ==> tasks[t].snap.Some? && tasks[t].attempts == old(tasks[t].attempts)
    {
      if poisoned {
        EndTask(t);
        return false;
      }
      match (channel.tip, channel.active) {
        case (Some(tip), Some(job)) =>
          var snap := Snapshot(job, tip, channel.target, activatedAt);
          tasks := tasks[t := tasks[t].(phase := Loaded, snap := Some(snap))];
          return true;
        case _ =>
          tasks := tasks[t := tasks[t].(phase := Panicked)];
          return false;
      }
    }

    method StartLoop(ghost lib: Library, t: nat)
      requires t < |tasks| && tasks[t].phase.Loaded?
      modifies this`tasks
      ensures View() == ActStep(lib, old(View()), t, Start) && |tasks| == old(|tasks|)
      ensures tasks[t] == old(tasks[t]).(phase := Looping, startedAt := clock, nonce := 0)
    {
      tasks := tasks[t := tasks[t].(phase := Looping, startedAt := clock, nonce := 0)];
    }

    /** The first poll of `select!`. */
    method PollOnce(ghost lib: Library, t: nat) returns (goesOn: bool)
      requires t < |tasks| && tasks[t].phase.Looping?
      modifies this`tasks
      ensures View() == ActStep(lib, old(View()), t, Poll) && |tasks| == old(|tasks|)
      ensures if goesOn then tasks[t].phase.Armed? && SameWork(old(tasks[t]), tasks[t]) else tasks[t].phase.Done?
    {
      goesOn := !Cancelled(t);
      if goesOn {
        tasks := tasks[t := tasks[t].(phase := Armed)];
      } else {
        EndTask(t);
      }
    }

    /** Builds and hashes one header; reports whether it met the target. */
    method HashHeader(lib: Library, t: nat) returns (found: bool)
      requires t < |tasks| && tasks[t].phase.Armed? && tasks[t].snap.Some? && tasks[t].startedAt <= clock
      modifies this`tasks
      ensures View() == ActStep(lib, old(View()), t, Work) && |tasks| == old(|tasks|)
      ensures if found then tasks[t].phase.Found? else tasks[t].phase.Looping?
      ensures |tasks[t].attempts| == old(|tasks[t].attempts|) + 1
      ensures tasks[t].snap == old(tasks[t].snap) && tasks[t].startedAt == old(tasks[t].startedAt)
    {
      var task := tasks[t];
      var snap := task.snap.value;
      var ntime := ClampedNtime(snap.job.minNtime, ElapsedSeconds(task.startedAt, clock));
      task := task.(attempts := task.attempts + [Attempt(task.nonce, ntime, clock)]);
      found := lib.meets(snap.job, snap.tip, snap.target, ntime, task.nonce);
      if found {
        task := task.(phase := Found(ntime));
      } else {
        task := task.(phase := Looping, nonce := WrappingIncrement(task.nonce));
      }
      tasks := tasks[t := task];
    }

    /** Numbers a share and has the channel validate it, under one write lock. */
    method NumberAndValidate(lib: Library, t: nat) returns (verdict: Reply)
      requires t < |tasks| && tasks[t].phase.Found? && (poisoned || tasks[t].snap.Some?)
      modifies this
      ensures View() == ActStep(lib, old(View()), t, Validate) && |tasks| == old(|tasks|)
      ensures match verdict
              case Poisoned => tasks[t].phase.Done?
              case Refused => tasks[t].phase.Looping?
              case Accepted => tasks[t].phase.Submitting?
      ensures SameWork(old(tasks[t]), tasks[t]) && clock == old(clock)
    {
      if poisoned {
        EndTask(t);
        return Poisoned;
      }
      var task := tasks[t];
      var sequence := channel.accounting.lastSequence + 1;
      var share := Share(sequence, task.snap.value.job.job.id, task.nonce, task.phase.ntime);
      if !lib.validates(channel, share) {
        tasks := tasks[t := task.(phase := Looping, nonce := WrappingIncrement(task.nonce))];
        return Refused;
      }
      var booked := channel.accounting.(lastSequence := sequence, validated := channel.accounting.validated + [share]);
      channel := channel.(accounting := booked);
      validators := validators + [t];
      tasks := tasks[t := task.(phase := Submitting(share))];
      return Accepted;
    }

    /** Puts the share on the upstream queue, when that succeeds. */
    method SendShare(ghost lib: Library, t: nat, ok: bool)
      requires t < |tasks| && tasks[t].phase.Submitting?
      modifies this`tasks, this`upstream
      ensures View() == ActStep(lib, old(View()), t, Send(ok)) && |tasks| == old(|tasks|)
      ensures if ok && singleSubmitToken.Some? then tasks[t].phase.Sent? else tasks[t].phase.Looping?
      ensures SameWork(old(tasks[t]), tasks[t])
    {
      var task := tasks[t];
      if ok {
        upstream := upstream + [Submission(t, task.phase.share)];
      }
      if ok && singleSubmitToken.Some? {
        tasks := tasks[t := task.(phase := Sent(task.phase.share))];
      } else {
        tasks := tasks[t := task.(phase := Looping, nonce := WrappingIncrement(task.nonce))];
      }
    }

    /** A cancellation branch taken at the second poll. */
    method StopTask(ghost lib: Library, t: nat)
      requires t < |tasks| && tasks[t].phase.Armed? && Cancelled(t)
      modifies this`tasks
      ensures View() == ActStep(lib, old(View()), t, Stop) && |tasks| == old(|tasks|) && tasks[t].phase.Done?
    {
      EndTask(t);
    }

    method CancelSingleSubmit(ghost lib: Library, t: nat)
      requires t < |tasks| && tasks[t].phase.Sent?
      modifies this`tasks, this`singleSubmitToken
      ensures View() == ActStep(lib, old(View()), t, CancelSingle) && |tasks| == old(|tasks|) && tasks[t].phase.Done?
    {
      EndTask(t);
      if singleSubmitToken.Some? {
        singleSubmitToken := Some(true);
      }
    }

    /** One step of a task, if the task has come to it. */
    method TakeTaskStep(lib: Library, t: nat, a: Act)
      modifies this
      ensures View() == ActStep(lib, old(View()), t, a)
    {
      if t >= |tasks| {
        return;
      }
      var phase, snapshot := tasks[t].phase, tasks[t].snap;
      NotItsTurn(lib, View(), t, a);
      hide ActStep;
      match a {
        case Enter => if phase.Spawned? { var _ := CheckSingleSubmit(lib, t); }
        case Load => if phase.Entered? { var _ := TakeSnapshot(lib, t); }
        case Start => if phase.Loaded? { StartLoop(lib, t); }
        case Poll => if phase.Looping? { var _ := PollOnce(lib, t); }
        case Work =>
          if phase.Armed? && snapshot.Some? && tasks[t].startedAt <= clock { var _ := HashHeader(lib, t); }
        case Validate =>
          if phase.Found? && (poisoned || snapshot.Some?) { var _ := NumberAndValidate(lib, t); }
        case Send(ok) => if phase.Submitting? { SendShare(lib, t, ok); }
        case CancelSingle => if phase.Sent? { CancelSingleSubmit(lib, t); }
        case Stop => if phase.Armed? && Cancelled(t) { StopTask(lib, t); }
      }
    }

    /** A step of one of the tasks, of the clock, or of a panic under the lock. */
    method TakeStep(lib: Library, l: Label)
      requires BackgroundLabel(l)
      modifies this
      ensures View() == Step(lib, old(View()), l)
    {
      hide ActStep;
      match l {
        case Take(t, a) => TakeTaskStep(lib, t, a);
        case Tick(d) => clock := clock + d;
        case Poison => poisoned := true;
        case GlobalCancel => globalCancelled := true;
      }
    }

    // ----- a whole task -----

    ghost predicate Traced(lib: Library, m0: Miner, trace: seq<Label>, t: nat, env: nat -> seq<Interference>, n: nat)
      reads this
    {
      t < |tasks| && LeadsTo(lib, m0, trace, View(), t, env, n)
    }

    /** A step of the task itself, appended to the trace. */
    lemma Appended(lib: Library, m0: Miner, trace: seq<Label>, before: Miner, t: nat, a: Act,
                   env: nat -> seq<Interference>, n: nat)
      requires LeadsTo(lib, m0, trace, before, t, env, n)
      requires t < |tasks| && View() == ActStep(lib, before, t, a)
      ensures Traced(lib, m0, trace + [Take(t, a)], t, env, n)
    {
      OwnStep(lib, m0, trace, t, a);
      hide ActStep, View;
    }

    /** What others do while the task waits. */
    method Pause(lib: Library, t: nat, steps: seq<Interference>)
      requires t < |tasks| && LeavesAlone(steps, t)
      modifies this
      ensures View() == Run(lib, old(View()), LabelsOf(steps))
      ensures t < |tasks| && tasks[t] == old(tasks[t]) && old(clock) <= clock
    {
      ghost var m0 := View();
      hide View, Handle, Step, CallLabels;
      for i := 0 to |steps|
        invariant View() == Run(lib, m0, LabelsOf(steps[..i]))
        invariant t < |tasks| && tasks[t] == old(tasks[t]) && old(clock) <= clock
      {
        ghost var m := View();
        FieldsOfView();
        OneMoreLabel(lib, m0, steps, i);
        InterferenceLeavesTask(lib, m, steps[i], t);
        match steps[i] {
          case Call(r) => var _ := Answer(lib, r);
          case Elsewhere(l) => TakeStep(lib, l);
        }
        assert View() == AfterInterference(lib, m, steps[i]);
        FieldsOfView();
      }
      assert steps[..|steps|] == steps;
    }

    lemma FieldsOfView()
      ensures View().tasks == tasks && View().clock == clock && View().handler.Idle?
    {
    }

    method Wait(lib: Library, t: nat, env: nat -> seq<Interference>, n: nat, ghost m0: Miner, ghost trace: seq<Label>)
      returns (ghost trace': seq<Label>)
      requires Traced(lib, m0, trace, t, env, n) && LeavesAlone(env(n), t)
      modifies this
      ensures Traced(lib, m0, trace', t, env, n + 1)
      ensures tasks[t] == old(tasks[t]) && old(clock) <= clock
    {
      hide View;
      trace' := trace + LabelsOf(env(n));
      RunConcat(lib, m0, trace, LabelsOf(env(n)));
      OthersPartConcat(trace, LabelsOf(env(n)), t);
      OthersPartOfOthers(env(n), t);
      Pause(lib, t, env(n));
    }

    /** From a header that met the target back to the loop head, or to the task's end. */
    method SubmitShare(lib: Library, t: nat, env: nat -> seq<Interference>, n: nat, ok: bool,
                       ghost m0: Miner, ghost trace: seq<Label>)
      returns (goesOn: bool, n': nat, ghost trace': seq<Label>)
      requires Traced(lib, m0, trace, t, env, n) && forall i :: LeavesAlone(env(i), t)
      requires tasks[t].phase.Found? && tasks[t].snap.Some?
      modifies this
      ensures Traced(lib, m0, trace', t, env, n') && old(clock) <= clock
      ensures if goesOn then tasks[t].phase.Looping? && SameWork(old(tasks[t]), tasks[t]) else tasks[t].phase.Done?
    {
      hide View, ActStep, LeadsTo, LeavesAlone;
      ghost var before;
      trace' := Wait(lib, t, env, n, m0, trace);
      n' := n + 1;
      before := View();
      var verdict := NumberAndValidate(lib, t);
      Appended(lib, m0, trace', before, t, Validate, env, n');
      trace' := trace' + [Take(t, Validate)];
      if !verdict.Accepted? {
        return verdict.Refused?, n', trace';
      }
      trace' := Wait(lib, t, env, n', m0, trace');
      n' := n' + 1;
      before := View();
      SendShare(lib, t, ok);
      Appended(lib, m0, trace', before, t, Send(ok), env, n');
      trace' := trace' + [Take(t, Send(ok))];
      goesOn := tasks[t].phase.Looping?;
      if !goesOn {
        trace' := Wait(lib, t, env, n', m0, trace');
        n' := n' + 1;
        before := View();
        CancelSingleSubmit(lib, t);
        Appended(lib, m0, trace', before, t, CancelSingle, env, n');
        trace' := trace' + [Take(t, CancelSingle)];
      }
    }

    /** One turn of the loop. `unlucky` says that a cancellation wins should it be pending at the
        second poll, `ok` that the upstream queue takes a share. */
    method MineTurn(lib: Library, t: nat, env: nat -> seq<Interference>, n: nat, unlucky: bool, ok: bool,
                    ghost m0: Miner, ghost trace: seq<Label>)
      returns (goesOn: bool, n': nat, ghost trace': seq<Label>)
      requires Traced(lib, m0, trace, t, env, n) && forall i :: LeavesAlone(env(i), t)
      requires tasks[t].phase.Looping? && tasks[t].snap.Some? && tasks[t].startedAt <= clock
      modifies this
      ensures Traced(lib, m0, trace', t, env, n')
      ensures if goesOn
              then tasks[t].phase.Looping? && tasks[t].snap.Some? && tasks[t].startedAt <= clock
                   && |tasks[t].attempts| == old(|tasks[t].attempts|) + 1
              else tasks[t].phase.Done?
    {
      hide View, ActStep, LeadsTo, LeavesAlone;
      ghost var before;
      trace' := Wait(lib, t, env, n, m0, trace);
      n' := n + 1;
      before := View();
      goesOn := PollOnce(lib, t);
      Appended(lib, m0, trace', before, t, Poll, env, n');
      trace' := trace' + [Take(t, Poll)];
      if !goesOn {
        return;
      }
      trace' := Wait(lib, t, env, n', m0, trace');
      n' := n' + 1;
      if Cancelled(t) && unlucky {
        before := View();
        StopTask(lib, t);
        Appended(lib, m0, trace', before, t, Stop, env, n');
        trace' := trace' + [Take(t, Stop)];
        return false, n', trace';
      }
      // the throttle's sleep
      trace' := Wait(lib, t, env, n', m0, trace');
      n' := n' + 1;
      before := View();
      var found := HashHeader(lib, t);
      Appended(lib, m0, trace', before, t, Work, env, n');
      trace' := trace' + [Take(t, Work)];
      if found {
        goesOn, n', trace' := SubmitShare(lib, t, env, n', ok, m0, trace');
      }
    }

    /** `mine_job`: the whole task, among whatever other tasks and handler calls do at its waits, for
        as many turns of its loop as it gets. It goes through a run of the protocol in which the
        others do just that, and stops only where the protocol's task ends. */
    method MineJob(
      lib: Library, t: nat, env: nat -> seq<Interference>, unlucky: nat -> bool, ok: nat -> bool, turns: nat)
      returns (ghost trace: seq<Label>, n: nat)
      requires t < |tasks| && tasks[t] == NewTask(tasks[t].token) && forall i :: LeavesAlone(env(i), t)
      modifies this
      ensures Traced(lib, old(View()), trace, t, env, n)
      ensures tasks[t].phase.Done? || tasks[t].phase.Panicked? || |tasks[t].attempts| == turns
    {
      ghost var m0 := View();
      assert LeadsTo(lib, m0, [], m0, t, env, 0);
      hide View, ActStep, LeadsTo, LeavesAlone;
      ghost var before;
      trace := Wait(lib, t, env, 0, m0, []);
      before := View();
      var admitted := CheckSingleSubmit(lib, t);
      Appended(lib, m0, trace, before, t, Enter, env, 1);
      trace, n := trace + [Take(t, Enter)], 1;
      if !admitted {
        return;
      }
      trace := Wait(lib, t, env, n, m0, trace);
      n := n + 1;
      before := View();
      var taken := TakeSnapshot(lib, t);
      Appended(lib, m0, trace, before, t, Load, env, n);
      trace := trace + [Take(t, Load)];
      if !taken {
        return;
      }
      trace := Wait(lib, t, env, n, m0, trace);
      n := n + 1;
      before := View();
      StartLoop(lib, t);
      Appended(lib, m0, trace, before, t, Start, env, n);
      trace := trace + [Take(t, Start)];
      for i := 0 to turns
        invariant Traced(lib, m0, trace, t, env, n) && |tasks[t].attempts| == i
        invariant tasks[t].phase.Looping? && tasks[t].snap.Some? && tasks[t].startedAt <= clock
      {
        var goesOn;
        goesOn, n, trace := MineTurn(lib, t, env, n, unlucky(i), ok(i), m0, trace);
        if !goesOn {
          return;
        }
      }
    }
  }

  // ----- the other steps of a run, seen from one task -----

  /** What happens elsewhere while a task waits: a handler call, or a step of another task, of the
      clock, or of a panic. */
  datatype Interference = Call(request: Request) | Elsewhere(step: Label)

  ghost predicate LeavesAlone(steps: seq<Interference>, t: nat) {
    forall i :: 0 <= i < |steps| && steps[i].Elsewhere? ==>
      BackgroundLabel(steps[i].step) && !OfTask(steps[i].step, t)
  }

  /** The trace leads from m0 to m, and without task t's own steps it is the first n pauses. */
  ghost predicate LeadsTo(lib: Library, m0: Miner, trace: seq<Label>, m: Miner, t: nat,
                          env: nat -> seq<Interference>, n: nat)
  {
    m == Run(lib, m0, trace) && OthersPart(trace, t) == LabelsUpTo(env, n)
  }

  predicate OfTask(l: Label, t: nat) {
    l.Take? && l.task == t
  }

  function Labels(x: Interference): seq<Label> {
    match x
    case Call(r) => CallLabels(r)
    case Elsewhere(l) => [l]
  }

  function LabelsOf(steps: seq<Interference>): seq<Label> {
    if steps == [] then [] else LabelsOf(steps[..|steps| - 1]) + Labels(steps[|steps| - 1])
  }

  /** The labels of the first n pauses. */
  function LabelsUpTo(env: nat -> seq<Interference>, n: nat): seq<Label> {
    if n == 0 then [] else LabelsUpTo(env, n - 1) + LabelsOf(env(n - 1))
  }

  /** A trace without the task's own steps. */
  function OthersPart(trace: seq<Label>, t: nat): seq<Label> {
    if trace == [] then []
    else OthersPart(trace[..|trace| - 1], t) + if OfTask(trace[|trace| - 1], t) then [] else [trace[|trace| - 1]]
  }

  function AfterInterference(lib: Library, m: Miner, x: Interference): Miner {
    match x
    case Call(r) => Handle(lib, m, r).0
    case Elsewhere(l) => Step(lib, m, l)
  }

  predicate SameWork(k: Task, k': Task) {
    k'.snap == k.snap && k'.attempts == k.attempts && k'.startedAt == k.startedAt
  }

  lemma {:induction false} OthersPartConcat(a: seq<Label>, b: seq<Label>, t: nat)
    ensures OthersPart(a + b, t) == OthersPart(a, t) + OthersPart(b, t)
    decreases |b|
  {
    if b == [] {
      assert a + b == a;
    } else {
      assert (a + b)[..|a + b| - 1] == a + b[..|b| - 1] && (a + b)[|a + b| - 1] == b[|b| - 1];
      OthersPartConcat(a, b[..|b| - 1], t);
    }
  }

  lemma OthersPartOfCall(r: Request, t: nat)
    ensures OthersPart(CallLabels(r), t) == CallLabels(r)
  {
    var ls := CallLabels(r);
    assert ls[..2] == [Write(r), Revoke] && ls[..2][..1] == [Write(r)] && [Write(r)][..0] == [];
    assert OthersPart([], t) == [] && OthersPart([Write(r)], t) == [Write(r)];
    assert OthersPart([Write(r), Revoke], t) == [Write(r)] + [Revoke];
  }

  lemma {:induction false} OthersPartOfOthers(steps: seq<Interference>, t: nat)
    requires LeavesAlone(steps, t)
    ensures OthersPart(LabelsOf(steps), t) == LabelsOf(steps)
    decreases |steps|
  {
    if steps != [] {
      var x := steps[|steps| - 1];
      OthersPartOfOthers(steps[..|steps| - 1], t);
      OthersPartConcat(LabelsOf(steps[..|steps| - 1]), Labels(x), t);
      match x {
        case Call(r) => OthersPartOfCall(r, t);
        case Elsewhere(l) => assert [l][..0] == [] && OthersPart([l], t) == [] + [l];
      }
    }
  }

  /** One own step appended to a trace. */
  lemma OwnStep(lib: Library, m0: Miner, trace: seq<Label>, t: nat, a: Act)
    ensures Run(lib, m0, trace + [Take(t, a)]) == ActStep(lib, Run(lib, m0, trace), t, a)
    ensures OthersPart(trace + [Take(t, a)], t) == OthersPart(trace, t)
  {
    hide ActStep;
    var l := Take(t, a);
    RunConcat(lib, m0, trace, [l]);
    RunOfOne(lib, Run(lib, m0, trace), l);
    assert (trace + [l])[..|trace|] == trace;
  }

  lemma RunOfOne(lib: Library, m: Miner, l: Label)
    ensures Run(lib, m, [l]) == Step(lib, m, l)
  {
    assert [l][1..] == [] && Run(lib, Step(lib, m, l), []) == Step(lib, m, l);
  }

  lemma InterferenceRuns(lib: Library, m: Miner, x: Interference)
    requires m.handler.Idle?
    ensures Run(lib, m, Labels(x)) == AfterInterference(lib, m, x)
  {
    match x {
      case Call(r) => HandleIsUninterruptedCall(lib, m, r);
      case Elsewhere(l) => RunOfOne(lib, m, l);
    }
    hide Run, Handle, Step;
  }

  lemma OneMoreLabel(lib: Library, m0: Miner, steps: seq<Interference>, i: nat)
    requires i < |steps| && Run(lib, m0, LabelsOf(steps[..i])).handler.Idle?
    ensures Run(lib, m0, LabelsOf(steps[..i + 1]))
            == AfterInterference(lib, Run(lib, m0, LabelsOf(steps[..i])), steps[i])
  {
    var m := Run(lib, m0, LabelsOf(steps[..i]));
    assert steps[..i + 1][..i] == steps[..i];
    RunConcat(lib, m0, LabelsOf(steps[..i]), Labels(steps[i]));
    InterferenceRuns(lib, m, steps[i]);
  }

  /** What happens elsewhere leaves the task's locals alone, and the clock does not go back. */
  lemma InterferenceLeavesTask(lib: Library, m: Miner, x: Interference, t: nat)
    requires t < |m.tasks| && (x.Elsewhere? ==> !OfTask(x.step, t))
    ensures var n := AfterInterference(lib, m, x);
            t < |n.tasks| && n.tasks[t] == m.tasks[t] && m.clock <= n.clock
  {
    hide Apply;
    if x.Elsewhere? && x.step.Take? {
      ActFrame(lib, m, x.step.task, x.step.act);
      hide ActStep;
    }
  }

  /** A step the task has not come to, or that its locals do not allow, leaves the miner as it is. */
  lemma NotItsTurn(lib: Library, m: Miner, t: nat, a: Act)
    requires t < |m.tasks|
    ensures var k := m.tasks[t];
            !(match a
              case Enter => k.phase.Spawned?
              case Load => k.phase.Entered?
              case Start => k.phase.Loaded?
              case Poll => k.phase.Looping?
              case Work => k.phase.Armed? && k.snap.Some? && k.startedAt <= m.clock
              case Validate => k.phase.Found? && (m.poisoned || k.snap.Some?)
              case Send(_) => k.phase.Submitting?
              case CancelSingle => k.phase.Sent?
              case Stop => k.phase.Armed? && CancelSeen(m, k))
            ==> ActStep(lib, m, t, a) == m
  {
  }
}
