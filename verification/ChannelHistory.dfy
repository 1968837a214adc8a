// What a channel holds, as its history: target, prefix, chain tip, active job and future jobs are
// those of the last accepted message of the right sort, over every interleaving with tasks.
module ChannelHistory {
  import opened Wrappers
  import opened ClientChannels
  import opened MiningTasks

  // ----- the messages that take effect -----

  /** The channel accepts the request: the library's verdict on it, or the job id is a stored one. */
  predicate Takes(lib: Library, c: Channel, r: Request) {
    match r
    case NewJob(j) => lib.acceptsJob(c, j)
    case GroupJob(j) => lib.derive(c.prefix, j) != None
    case ExtendedJob(j) => lib.acceptsJob(c, j)
    case PrevHash(p) => p.jobId in c.future
    case Target(t) => lib.acceptsTarget(c, t)
    case Prefix(p) => lib.acceptsPrefix(c, p)
    case Acknowledge(_, _) => true
    case Reject(_) => true
  }

  /** The label writes a request that takes effect: between calls, under a sound lock, accepted. */
  predicate TakesEffect(lib: Library, m: Miner, l: Label) {
    l.Write? && m.handler == Idle && !m.poisoned && Takes(lib, m.channel, l.request)
  }

  /** The job a request carries, if it carries one: a standard channel derives its own from a group's
      extended job, with its own prefix. */
  function JobIn(lib: Library, c: Channel, r: Request): Option<Job> {
    match r
    case NewJob(j) => Some(Job(j.jobId, j.body, false))
    case GroupJob(j) =>
      (match lib.derive(c.prefix, j)
       case Some(body) => Some(Job(j.jobId, body, true))
       case None => None)
    case ExtendedJob(j) => Some(Job(j.jobId, j.body, true))
    case _ => None
  }

  /** The timestamp minimum of the job a request carries: none for a future job. */
  function MinNtimeIn(r: Request): Option<u32> {
    match r
    case NewJob(j) => j.minNtime
    case GroupJob(j) => j.minNtime
    case ExtendedJob(j) => j.minNtime
    case _ => None
  }

  /** An accepted request that makes a job active. */
  predicate StartsWork(r: Request) {
    r.PrevHash? || MinNtimeIn(r) != None
  }

  // ----- the last message of each sort -----

  /** The state a run has reached before its last label. */
  function Before(lib: Library, m0: Miner, ls: seq<Label>): Miner
    requires ls != []
  {
    Run(lib, m0, ls[..|ls| - 1])
  }

  function Last(ls: seq<Label>): Label
    requires ls != []
  {
    ls[|ls| - 1]
  }

  function LastTarget(lib: Library, m0: Miner, ls: seq<Label>): nat {
    if ls == [] then m0.channel.target
    else if TakesEffect(lib, Before(lib, m0, ls), Last(ls)) && Last(ls).request.Target? then Last(ls).request.target
    else LastTarget(lib, m0, ls[..|ls| - 1])
  }

  function LastPrefix(lib: Library, m0: Miner, ls: seq<Label>): Bytes {
    if ls == [] then m0.channel.prefix
    else if TakesEffect(lib, Before(lib, m0, ls), Last(ls)) && Last(ls).request.Prefix? then Last(ls).request.prefix
    else LastPrefix(lib, m0, ls[..|ls| - 1])
  }

  function LastTip(lib: Library, m0: Miner, ls: seq<Label>): Option<ChainTip> {
    if ls == [] then m0.channel.tip
    else if TakesEffect(lib, Before(lib, m0, ls), Last(ls)) && Last(ls).request.PrevHash?
    then Some(ChainTip(Last(ls).request.prevHash.prevHash, Last(ls).request.prevHash.nbits))
    else LastTip(lib, m0, ls[..|ls| - 1])
  }

  /** The future job of this id: the last one stored since the last accepted SetNewPrevHash. */
  function Stored(lib: Library, m0: Miner, ls: seq<Label>, id: Id): Option<Job> {
    if ls == [] then (if id in m0.channel.future then Some(m0.channel.future[id]) else None)
    else
      var m, l, earlier := Before(lib, m0, ls), Last(ls), ls[..|ls| - 1];
      if !TakesEffect(lib, m, l) then Stored(lib, m0, earlier, id)
      else if l.request.PrevHash? then None
      else
        match JobIn(lib, m.channel, l.request)
        case Some(job) =>
          if MinNtimeIn(l.request) == None && job.id == id then Some(job) else Stored(lib, m0, earlier, id)
        case None => Stored(lib, m0, earlier, id)
  }

  /** The job of the last activating message, and its timestamp minimum: the job it carried, or the
      stored one it named. */
  function LastActive(lib: Library, m0: Miner, ls: seq<Label>): Option<ActiveJob> {
    if ls == [] then m0.channel.active
    else
      var m, l, earlier := Before(lib, m0, ls), Last(ls), ls[..|ls| - 1];
      if !TakesEffect(lib, m, l) || !StartsWork(l.request) then LastActive(lib, m0, earlier)
      else if l.request.PrevHash? then
        match Stored(lib, m0, earlier, l.request.prevHash.jobId)
        case Some(job) => Some(ActiveJob(job, l.request.prevHash.minNtime))
        case None => None
      else
        match JobIn(lib, m.channel, l.request)
        case Some(job) => Some(ActiveJob(job, MinNtimeIn(l.request).value))
        case None => None
  }

  /** The clock: the sum of its ticks. */
  function Ticks(m0: Miner, ls: seq<Label>): nat {
    if ls == [] then m0.clock
    else Ticks(m0, ls[..|ls| - 1]) + if Last(ls).Tick? then Last(ls).d else 0
  }

  /** The clock when the last activating message took effect. */
  function LastActivation(lib: Library, m0: Miner, ls: seq<Label>): nat {
    if ls == [] then m0.activatedAt
    else if TakesEffect(lib, Before(lib, m0, ls), Last(ls)) && StartsWork(Last(ls).request)
    then Ticks(m0, ls[..|ls| - 1])
    else LastActivation(lib, m0, ls[..|ls| - 1])
  }

  // ----- the channel is its history -----

  ghost predicate Remembers(lib: Library, m0: Miner, ls: seq<Label>, m: Miner) {
    && m.channel.target == LastTarget(lib, m0, ls) && m.channel.prefix == LastPrefix(lib, m0, ls)
    && m.channel.tip == LastTip(lib, m0, ls) && m.channel.active == LastActive(lib, m0, ls)
    && (forall id :: Stored(lib, m0, ls, id) == if id in m.channel.future then Some(m.channel.future[id]) else None)
    && m.clock == Ticks(m0, ls) && m.activatedAt == LastActivation(lib, m0, ls)
    && (m.stopped <==> m0.stopped || GlobalCancel in ls) && (m.poisoned <==> m0.poisoned || Poison in ls)
    && m.channel.id == m0.channel.id && m.channel.kind == m0.channel.kind
  }

  /** A run is the run before its last label, and one step more. */
  lemma RunOneMore(lib: Library, m0: Miner, ls: seq<Label>)
    requires ls != []
    ensures Run(lib, m0, ls) == Step(lib, Before(lib, m0, ls), Last(ls))
  {
    hide Step;
    var l := Last(ls);
    assert ls == ls[..|ls| - 1] + [l];
    RunConcat(lib, m0, ls[..|ls| - 1], [l]);
    assert [l][1..] == [] && Run(lib, Step(lib, Before(lib, m0, ls), l), []) == Step(lib, Before(lib, m0, ls), l);
  }

  /** What one accepted request does to the channel, and what it leaves. */
  lemma RequestWrittenOut(lib: Library, c: Channel, r: Request)
    ensures Apply(lib, c, r) != None <==> Takes(lib, c, r)
    ensures Activates(r) <==> StartsWork(r)
    ensures Takes(lib, c, r) ==>
              var n := Apply(lib, c, r).value;
              && n.target == (if r.Target? then r.target else c.target)
              && n.prefix == (if r.Prefix? then r.prefix else c.prefix)
              && n.tip == (if r.PrevHash? then Some(ChainTip(r.prevHash.prevHash, r.prevHash.nbits)) else c.tip)
              && n.id == c.id && n.kind == c.kind
    ensures Takes(lib, c, r) && r.PrevHash? ==>
              var n := Apply(lib, c, r).value;
              n.future == map[] && n.active == Some(ActiveJob(c.future[r.prevHash.jobId], r.prevHash.minNtime))
    ensures Takes(lib, c, r) && !r.PrevHash? ==>
              var n := Apply(lib, c, r).value;
              match JobIn(lib, c, r)
              case None => n.future == c.future && n.active == c.active
              case Some(job) =>
                match MinNtimeIn(r)
                case Some(ntime) => n.future == c.future && n.active == Some(ActiveJob(job, ntime))
                case None => n.future == c.future[job.id := job] && n.active == c.active
  {
  }

  /** A label that writes no accepted request leaves what the channel remembers alone. */
  lemma OthersLeaveTheChannel(lib: Library, m: Miner, l: Label)
    requires !TakesEffect(lib, m, l)
    ensures var n := Step(lib, m, l);
            && n.channel == m.channel.(accounting := n.channel.accounting) && n.activatedAt == m.activatedAt
            && n.clock == m.clock + (if l.Tick? then l.d else 0)
            && (n.stopped <==> m.stopped || l == GlobalCancel) && (n.poisoned <==> m.poisoned || l == Poison)
  {
    match l {
      case Write(r) => RequestWrittenOut(lib, m.channel, r);
      case Take(t, a) => ActFrame(lib, m, t, a);
      case _ =>
    }
    hide ActStep, Apply;
  }

  lemma EffectOnTheMiner(lib: Library, m: Miner, l: Label)
    requires TakesEffect(lib, m, l)
    ensures var n := Step(lib, m, l);
            && Apply(lib, m.channel, l.request) == Some(n.channel)
            && n.activatedAt == (if StartsWork(l.request) then m.clock else m.activatedAt)
            && n.clock == m.clock && n.stopped == m.stopped && n.poisoned == m.poisoned
  {
    RequestWrittenOut(lib, m.channel, l.request);
    hide Apply;
  }

  lemma StepRemembers(lib: Library, m0: Miner, ls: seq<Label>)
    requires ls != [] && Remembers(lib, m0, ls[..|ls| - 1], Before(lib, m0, ls))
    ensures Remembers(lib, m0, ls, Step(lib, Before(lib, m0, ls), Last(ls)))
  {
    var m, l := Before(lib, m0, ls), Last(ls);
    assert ls == ls[..|ls| - 1] + [l];
    if TakesEffect(lib, m, l) {
      EffectOnTheMiner(lib, m, l);
      RequestWrittenOut(lib, m.channel, l.request);
    } else {
      OthersLeaveTheChannel(lib, m, l);
    }
    hide Step, Apply, Before, TakesEffect;
  }

  /** In every interleaving a channel holds the target of the last accepted SetTarget, the prefix of the
      last accepted SetExtranoncePrefix, the chain tip of the last accepted SetNewPrevHash, the job of
      the last message that made one active, and the future jobs stored since that SetNewPrevHash. */
  lemma {:induction false} ChannelIsItsHistory(lib: Library, m0: Miner, ls: seq<Label>)
    ensures Remembers(lib, m0, ls, Run(lib, m0, ls))
  {
    if ls != [] {
      ChannelIsItsHistory(lib, m0, ls[..|ls| - 1]);
      StepRemembers(lib, m0, ls);
      RunOneMore(lib, m0, ls);
      hide Remembers, Step;
    }
  }

  // ----- what tasks work on -----

  /** The snapshot is what messages had made of the channel by then. */
  ghost predicate SnapshotOfHistory(lib: Library, m0: Miner, ls: seq<Label>, snap: Snapshot) {
    && LastActive(lib, m0, ls) == Some(snap.job) && LastTip(lib, m0, ls) == Some(snap.tip)
    && LastTarget(lib, m0, ls) == snap.target && LastActivation(lib, m0, ls) == snap.activatedAt
  }

  /** A snapshot is set by the task's own Load step, from the channel of that moment. */
  lemma LoadTakesTheChannel(lib: Library, m: Miner, l: Label, t: nat)
    requires t < |Step(lib, m, l).tasks| && Step(lib, m, l).tasks[t].snap.Some?
    ensures (t < |m.tasks| && m.tasks[t].snap == Step(lib, m, l).tasks[t].snap)
            || (l == Take(t, Load)
                && var snap := Step(lib, m, l).tasks[t].snap.value;
                   m.channel.active == Some(snap.job) && m.channel.tip == Some(snap.tip)
                   && m.channel.target == snap.target && m.activatedAt == snap.activatedAt)
  {
    hide Apply, NtimeNow, NextShare, Validated;
    if l.Take? { ActFrame(lib, m, l.task, l.act); }
  }

  /** Every task works on the job of the last activating message, the chain tip of the last accepted
      SetNewPrevHash and the target of the last accepted SetTarget before it took its snapshot. */
  lemma {:induction false} SnapshotsFollowTheMessages(lib: Library, c: Channel, single: bool, ls: seq<Label>, t: nat)
    requires var m := Run(lib, NewMiner(c, single), ls); t < |m.tasks| && m.tasks[t].snap.Some?
    ensures exists p :: 0 <= p < |ls| && ls[p] == Take(t, Load)
                        && SnapshotOfHistory(lib, NewMiner(c, single), ls[..p],
                                             Run(lib, NewMiner(c, single), ls).tasks[t].snap.value)
    decreases |ls|
  {
    var m0 := NewMiner(c, single);
    var n := |ls| - 1;
    var m := Before(lib, m0, ls);
    RunOneMore(lib, m0, ls);
    LoadTakesTheChannel(lib, m, ls[n], t);
    hide Step;
    if t < |m.tasks| && m.tasks[t].snap == Run(lib, m0, ls).tasks[t].snap {
      SnapshotsFollowTheMessages(lib, c, single, ls[..n], t);
      var p :| 0 <= p < n && ls[..n][p] == Take(t, Load)
               && SnapshotOfHistory(lib, m0, ls[..n][..p], m.tasks[t].snap.value);
      assert ls[..n][..p] == ls[..p];
    } else {
      ChannelIsItsHistory(lib, m0, ls[..n]);
      assert SnapshotOfHistory(lib, m0, ls[..n], Run(lib, m0, ls).tasks[t].snap.value);
    }
  }

  // ----- how long a future job stays -----

  /** No SetNewPrevHash and no other future job of this id takes effect in the run. */
  ghost predicate Undisturbed(lib: Library, m: Miner, ls: seq<Label>, id: Id) {
    forall p :: 0 <= p < |ls| && TakesEffect(lib, Run(lib, m, ls[..p]), ls[p]) ==>
      var r := ls[p].request;
      !r.PrevHash? && !(MinNtimeIn(r) == None && CarriesJob(r, id))
  }

  predicate CarriesJob(r: Request, id: Id) {
    (r.NewJob? || r.GroupJob? || r.ExtendedJob?) && r.job.jobId == id
  }

  /** A future job stays stored until a SetNewPrevHash is accepted or a future job of the same id takes
      its place. */
  lemma {:induction false} FutureJobsStay(lib: Library, m: Miner, ls: seq<Label>, id: Id)
    requires id in m.channel.future && Undisturbed(lib, m, ls, id)
    ensures var n := Run(lib, m, ls); id in n.channel.future && n.channel.future[id] == m.channel.future[id]
    decreases |ls|
  {
    if ls != [] {
      var n := |ls| - 1;
      forall p | 0 <= p < n ensures ls[..n][p] == ls[p] && ls[..n][..p] == ls[..p] {
      }
      FutureJobsStay(lib, m, ls[..n], id);
      var before := Before(lib, m, ls);
      RunOneMore(lib, m, ls);
      match ls[n] {
        case Write(r) =>
          RequestWrittenOut(lib, before.channel, r);
          hide Apply, Run;
        case Take(t, a) =>
          ActFrame(lib, before, t, a);
          hide ActStep, Run;
        case _ => hide Run;
      }
    }
  }
}
