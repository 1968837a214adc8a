// The mining-task protocol of one channel miner, as a system of labelled steps.
//
// A handler call writes the channel under its lock and, when the request activated a job, cancels
// the current token, mints a new one and spawns a task. Tasks are separate threads of control:
// between any two of these steps any task may take a step of its own, superseded tasks included.
// The work branch of the loop's `select!` awaits `yield_now`, which is never ready at its first
// poll: a token cancelled by then ends the task, one cancelled later may lose the race once more.
// A label whose guard does not hold leaves the miner as it is, so every list of labels is a run.
module MiningTasks {
  import opened Wrappers
  import opened ClientChannels
  import opened Clock

  /** What a task copies from the channel before its loop. `activatedAt` is the clock reading at
      which the copied job became the active one. */
  datatype Snapshot = Snapshot(job: ActiveJob, tip: ChainTip, target: nat, activatedAt: nat)

  datatype Phase =
    | Spawned                   // before the single-submit check
    | Entered                   // past the check, snapshot not taken
    | Loaded                    // snapshot taken, loop clock not started
    | Looping                   // at the loop head, `select!` not polled yet
    | Armed                     // `select!` polled once with no branch ready
    | Found(ntime: u32)         // the header met the target, share not validated yet
    | Submitting(share: Share)  // share validated, not sent yet
    | Sent(share: Share)        // single-submit mode: sent, token not cancelled yet
    | Done
    | Panicked

  /** One header a task hashed, with the clock reading its timestamp came from. */
  datatype Attempt = Attempt(nonce: u32, ntime: u32, at: nat)

  datatype Task = Task(
    token: nat,
    phase: Phase,
    passed: bool,              // it went past the single-submit check
    snap: Option<Snapshot>,
    startedAt: nat,
    nonce: u32,
    attempts: seq<Attempt>)    // every header hashed so far

  /** Where the handler stands: between calls, after its write, or after revoking the old token. */
  datatype Handler = Idle | Wrote | Revoked

  /** A share on the upstream queue and the task that sent it. */
  datatype Submission = Submission(task: nat, share: Share)

  datatype Miner = Miner(
    channel: Channel,
    poisoned: bool,            // a panic happened while the channel lock was held
    current: nat,              // the miner cancellation token; tokens are numbered as minted
    cancelled: set<nat>,
    single: Option<bool>,      // the single-submit token, if any: is it cancelled?
    stopped: bool,             // the global token is cancelled
    tasks: seq<Task>,
    validators: seq<nat>,      // which task validated each share of the channel's accounting
    upstream: seq<Submission>,
    handler: Handler,
    clock: nat,
    activatedAt: nat)

  datatype Act = Enter | Load | Start | Poll | Work | Validate | Send(ok: bool) | CancelSingle | Stop

  datatype Label =
    | Write(request: Request)
    | Revoke
    | Respawn
    | Take(task: nat, act: Act)
    | Tick(d: nat)
    | Poison
    | GlobalCancel

  /** The labels of tasks, clock and panics, as opposed to those of a handler call. */
  predicate BackgroundLabel(l: Label) {
    l.Take? || l.Tick? || l.Poison? || l.GlobalCancel?
  }

  function NewMiner(c: Channel, singleSubmit: bool): Miner {
    Miner(c, false, 0, {}, if singleSubmit then Some(false) else None, false, [], [], [], Idle, 0, 0)
  }

  function NewTask(token: nat): Task {
    Task(token, Spawned, false, None, 0, 0, [])
  }

  // ----- the three steps of a handler call -----

  function WriteStep(lib: Library, m: Miner, r: Request): Miner {
    if m.poisoned then m else
    match Apply(lib, m.channel, r)
    case None => m
    case Some(c) =>
      if Activates(r) then m.(channel := c, handler := Wrote, activatedAt := m.clock)
      else m.(channel := c)
  }

  function RevokeStep(m: Miner): Miner {
    m.(cancelled := m.cancelled + {m.current}, handler := Revoked)
  }

  function RespawnStep(m: Miner): Miner {
    m.(current := m.current + 1, tasks := m.tasks + [NewTask(m.current + 1)], handler := Idle)
  }

  // ----- the steps of one task -----

  function WithTask(m: Miner, t: nat, k: Task): Miner
    requires t < |m.tasks|
  {
    m.(tasks := m.tasks[t := k])
  }

  function EnterStep(m: Miner, t: nat): Miner
    requires t < |m.tasks|
  {
    var k := m.tasks[t];
    if m.single == Some(true) then WithTask(m, t, k.(phase := Done))
    else WithTask(m, t, k.(phase := Entered, passed := true))
  }

  function LoadStep(m: Miner, t: nat): Miner
    requires t < |m.tasks|
  {
    var k := m.tasks[t];
    if m.poisoned then WithTask(m, t, k.(phase := Done))
    else if m.channel.tip.None? || m.channel.active.None? then WithTask(m, t, k.(phase := Panicked))
    else
      var snap := Snapshot(m.channel.active.value, m.channel.tip.value, m.channel.target, m.activatedAt);
      WithTask(m, t, k.(phase := Loaded, snap := Some(snap)))
  }

  function StartStep(m: Miner, t: nat): Miner
    requires t < |m.tasks|
  {
    WithTask(m, t, m.tasks[t].(phase := Looping, startedAt := m.clock, nonce := 0))
  }

  /** The timestamp of a header built now. */
  function NtimeNow(k: Task, now: nat): u32
    requires k.snap.Some? && k.startedAt <= now
  {
    ClampedNtime(k.snap.value.job.minNtime, ElapsedSeconds(k.startedAt, now))
  }

  function WithAttempt(k: Task, ntime: u32, now: nat): Task {
    k.(attempts := k.attempts + [Attempt(k.nonce, ntime, now)])
  }

  function NextTurn(k: Task): Task {
    k.(phase := Looping, nonce := WrappingIncrement(k.nonce))
  }

  /** One turn of the loop up to the comparison with the target. */
  function WorkStep(lib: Library, m: Miner, t: nat): Miner
    requires t < |m.tasks|
  {
    var k := m.tasks[t];
    if k.snap.None? || m.clock < k.startedAt then m
    else
      var snap := k.snap.value;
      var ntime := NtimeNow(k, m.clock);
      var k' := WithAttempt(k, ntime, m.clock);
      if lib.meets(snap.job, snap.tip, snap.target, ntime, k.nonce)
      then WithTask(m, t, k'.(phase := Found(ntime)))
      else WithTask(m, t, NextTurn(k'))
  }

  /** Numbering and validation of a share, under one write lock. */
  function ValidateStep(lib: Library, m: Miner, t: nat): Miner
    requires t < |m.tasks| && m.tasks[t].phase.Found?
  {
    var k := m.tasks[t];
    if m.poisoned then WithTask(m, t, k.(phase := Done))
    else if k.snap.None? then m
    else
      var s := NextShare(m.channel, k.snap.value.job.job.id, k.nonce, k.phase.ntime);
      if lib.validates(m.channel, s)
      then WithTask(m, t, k.(phase := Submitting(s)))
           .(channel := Validated(m.channel, s), validators := m.validators + [t])
      else WithTask(m, t, NextTurn(k))
  }

  function SendStep(m: Miner, t: nat, ok: bool): Miner
    requires t < |m.tasks| && m.tasks[t].phase.Submitting?
  {
    var k := m.tasks[t];
    if !ok then WithTask(m, t, NextTurn(k))
    else
      WithTask(m, t, if m.single.Some? then k.(phase := Sent(k.phase.share)) else NextTurn(k))
      .(upstream := m.upstream + [Submission(t, k.phase.share)])
  }

  function CancelSingleStep(m: Miner, t: nat): Miner
    requires t < |m.tasks|
  {
    WithTask(m, t, m.tasks[t].(phase := Done)).(single := if m.single.Some? then Some(true) else None)
  }

  predicate CancelSeen(m: Miner, k: Task) {
    m.stopped || k.token in m.cancelled
  }

  /** The first poll of `select!`: only the cancellation branches can be ready. */
  function PollStep(m: Miner, t: nat): Miner
    requires t < |m.tasks|
  {
    var k := m.tasks[t];
    WithTask(m, t, k.(phase := if CancelSeen(m, k) then Done else Armed))
  }

  /** A cancellation branch taken at a later poll, where the work branch is ready as well. */
  function StopStep(m: Miner, t: nat): Miner
    requires t < |m.tasks|
  {
    var k := m.tasks[t];
    if CancelSeen(m, k) then WithTask(m, t, k.(phase := Done)) else m
  }

  function ActStep(lib: Library, m: Miner, t: nat, a: Act): Miner {
    if t >= |m.tasks| then m else
    var phase := m.tasks[t].phase;
    match a
    case Enter => if phase.Spawned? then EnterStep(m, t) else m
    case Load => if phase.Entered? then LoadStep(m, t) else m
    case Start => if phase.Loaded? then StartStep(m, t) else m
    case Poll => if phase.Looping? then PollStep(m, t) else m
    case Work => if phase.Armed? then WorkStep(lib, m, t) else m
    case Validate => if phase.Found? then ValidateStep(lib, m, t) else m
    case Send(ok) => if phase.Submitting? then SendStep(m, t, ok) else m
    case CancelSingle => if phase.Sent? then CancelSingleStep(m, t) else m
    case Stop => if phase.Armed? then StopStep(m, t) else m
  }

  function Step(lib: Library, m: Miner, l: Label): Miner {
    match l
    case Write(r) => if m.handler.Idle? then WriteStep(lib, m, r) else m
    case Revoke => if m.handler.Wrote? then RevokeStep(m) else m
    case Respawn => if m.handler.Revoked? then RespawnStep(m) else m
    case Take(t, a) => ActStep(lib, m, t, a)
    case Tick(d) => m.(clock := m.clock + d)
    case Poison => m.(poisoned := true)
    case GlobalCancel => m.(stopped := true)
  }

  function Run(lib: Library, m: Miner, ls: seq<Label>): Miner
    decreases |ls|
  {
    if ls == [] then m else Run(lib, Step(lib, m, ls[0]), ls[1..])
  }

  lemma {:induction false} RunConcat(lib: Library, m: Miner, a: seq<Label>, b: seq<Label>)
    ensures Run(lib, m, a + b) == Run(lib, Run(lib, m, a), b)
    decreases |a|
  {
    if a == [] {
      assert a + b == b;
    } else {
      assert (a + b)[0] == a[0] && (a + b)[1..] == a[1..] + b;
      RunConcat(lib, Step(lib, m, a[0]), a[1..], b);
    }
  }

  // ----- what a task's step leaves alone -----

  function SnapshotNow(m: Miner): Option<Snapshot> {
    if m.channel.active.Some? && m.channel.tip.Some?
    then Some(Snapshot(m.channel.active.value, m.channel.tip.value, m.channel.target, m.activatedAt))
    else None
  }

  /** A task's step changes its own locals and, of the shared state, only the share accounting,
      the upstream queue and the single-submit token. Its snapshot is set once, from the channel. */
  ghost predicate OnlyTask(m: Miner, n: Miner, t: nat) {
    && |n.tasks| == |m.tasks|
    && (forall i :: 0 <= i < |m.tasks| && i != t ==> n.tasks[i] == m.tasks[i])
    && n == m.(tasks := n.tasks, single := n.single, upstream := n.upstream, validators := n.validators,
               channel := m.channel.(accounting := n.channel.accounting))
    && (t < |m.tasks| ==>
          && n.tasks[t].token == m.tasks[t].token
          && (n.tasks[t].snap == m.tasks[t].snap || (SnapshotNow(m).Some? && n.tasks[t].snap == SnapshotNow(m))))
  }

  lemma LocalStepsFrame(m: Miner, t: nat)
    requires t < |m.tasks|
    ensures OnlyTask(m, EnterStep(m, t), t) && OnlyTask(m, LoadStep(m, t), t)
    ensures OnlyTask(m, StartStep(m, t), t)
  {
  }

  lemma CancelStepsFrame(m: Miner, t: nat)
    requires t < |m.tasks|
    ensures OnlyTask(m, PollStep(m, t), t) && OnlyTask(m, StopStep(m, t), t)
    ensures OnlyTask(m, CancelSingleStep(m, t), t)
  {
  }

  lemma WorkFrame(lib: Library, m: Miner, t: nat)
    requires t < |m.tasks|
    ensures OnlyTask(m, WorkStep(lib, m, t), t)
  {
  }

  lemma ValidateFrame(lib: Library, m: Miner, t: nat)
    requires t < |m.tasks| && m.tasks[t].phase.Found?
    ensures OnlyTask(m, ValidateStep(lib, m, t), t)
  {
  }

  lemma SendFrame(m: Miner, t: nat, ok: bool)
    requires t < |m.tasks| && m.tasks[t].phase.Submitting?
    ensures OnlyTask(m, SendStep(m, t, ok), t)
  {
  }

  lemma ActFrame(lib: Library, m: Miner, t: nat, a: Act)
    ensures OnlyTask(m, ActStep(lib, m, t, a), t)
  {
    hide EnterStep, LoadStep, StartStep, PollStep, WorkStep, ValidateStep, SendStep,
         CancelSingleStep, StopStep, SnapshotNow;
    if t < |m.tasks| {
      LocalStepsFrame(m, t);
      CancelStepsFrame(m, t);
      WorkFrame(lib, m, t);
      if m.tasks[t].phase.Found? { ValidateFrame(lib, m, t); }
      if a.Send? && m.tasks[t].phase.Submitting? { SendFrame(m, t, a.ok); }
    }
  }

  // ----- a handler call that no task interrupts -----

  datatype Reply = Accepted | Refused | Poisoned

  /** The whole handler call: what it does to the miner and what it returns. */
  function Handle(lib: Library, m: Miner, r: Request): (Miner, Reply) {
    if m.poisoned then (m, Poisoned) else
    match Apply(lib, m.channel, r)
    case None => (m, Refused)
    case Some(c) =>
      if Activates(r)
      then (m.(channel := c, activatedAt := m.clock, cancelled := m.cancelled + {m.current},
               current := m.current + 1, tasks := m.tasks + [NewTask(m.current + 1)]), Accepted)
      else (m.(channel := c), Accepted)
  }

  function CallLabels(r: Request): seq<Label> {
    [Write(r), Revoke, Respawn]
  }

  /** The call is its three steps run in a row. */
  lemma HandleIsUninterruptedCall(lib: Library, m: Miner, r: Request)
    requires m.handler.Idle?
    ensures Handle(lib, m, r).0 == Run(lib, m, CallLabels(r))
    ensures Handle(lib, m, r).0.handler.Idle?
  {
    var ls := CallLabels(r);
    var m1 := Step(lib, m, ls[0]);
    var m2 := Step(lib, m1, ls[1]);
    var m3 := Step(lib, m2, ls[2]);
    assert ls[1..] == [Revoke, Respawn] && ls[1..][1..] == [Respawn] && ls[1..][1..][1..] == [];
    assert Run(lib, m3, []) == m3 && Run(lib, m2, [Respawn]) == m3;
    assert Run(lib, m, ls) == m3;
  }
}
