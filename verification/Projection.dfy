// Channels do not interfere: over a whole run of server messages and task steps, the state of one
// channel is what replaying, on that channel alone, the inputs that concerned it gives.
module Projection {
  import opened Wrappers
  import opened ClientChannels
  import opened MiningTasks
  import opened Routing
  import opened GroupIndex
  import opened Membership
  import opened FanOutOrder

  /** What an event may bring to one channel. */
  datatype Input =
    | Nothing
    | Started(channel: Channel)
    | Ended
    | Asked(request: Request)
    | Stepped(step: Label)

  function NewOf(lib: Library, s: Manager, id: Id, msg: Message): Input {
    match msg
    case OpenStandard(i, _, p, t) =>
      if i == id && OpenMessageAccepted(lib, s, msg) then Started(NewChannel(id, Standard, p, t)) else Nothing
    case OpenExtended(i, _, p, t, r) =>
      if i == id && OpenMessageAccepted(lib, s, msg) then Started(NewChannel(id, Extended(r), p, t)) else Nothing
    case _ => Nothing
  }

  function When(c: bool, i: Input): Input {
    if c then i else Nothing
  }

  /** The input one event brings to one channel. It depends on the channel's kind, on the ids the
      message names and on the groups; whether an open is accepted depends besides on which ids are
      open and on the size its group has recorded. What the other channels hold does not matter, but
      for a poisoned lock: it ends a fan-out, and the run, before the channels not visited yet. */
  function InputTo(cfg: Config, lib: Library, s: Manager, id: Id, e: Event): Input {
    match e
    case Background(i, standard, l) =>
      When(i == id && id in (if standard then s.standard else s.extended) && BackgroundLabel(l), Stepped(l))
    case Receive(msg, order) =>
      match msg
      case CloseChannel(i) => When(id in Addressed(s, i), Ended)
      case SetPrefix(i, p) => When(i == id && lib.wirePrefix(p), Asked(Prefix(p)))
      case SharesSuccess(i, n, w) => When(i == id, Asked(Acknowledge(n, w)))
      case SharesError(i, code) => When(i == id, Asked(Reject(code)))
      case NewMiningJob(i, j) => When(i == id && id in s.standard, Asked(NewJob(j)))
      case NewExtendedJob(i, j) =>
        if cfg.requiresStandardJobs then Nothing
        else if i in s.groups
        then When(id in Reached(s, order), Asked(if id in s.standard then GroupJob(j) else ExtendedJob(j)))
        else When(i == id && id in s.extended, Asked(ExtendedJob(j)))
      case SetNewPrevHash(_, p) => When(id in Reached(s, order), Asked(PrevHash(p)))
      case SetTarget(_, t) => When(id in Reached(s, order), Asked(Target(t)))
      case _ => NewOf(lib, s, id, msg)
  }

  /** The channel machine: one channel by itself. */
  function Alone(cfg: Config, lib: Library, o: Option<Miner>, i: Input): Option<Miner> {
    match i
    case Nothing => o
    case Started(c) => Some(NewMiner(c, cfg.singleSubmit))
    case Ended => None
    case Asked(r) => if o.Some? then Some(Handle(lib, o.value, r).0) else None
    case Stepped(l) => if o.Some? then Some(Step(lib, o.value, l)) else None
  }

  function Local(s: Manager, id: Id): Option<Miner> {
    if id in s.standard then Some(s.standard[id])
    else if id in s.extended then Some(s.extended[id])
    else None
  }

  lemma OpenProjects(
    cfg: Config, lib: Library, s: Manager, id: Id, i: Id, g: Id, kind: Kind, prefix: Bytes, target: nat)
    requires IndexInv(s) && OneKind(s) && !IsOpen(s, i)
    ensures Local(Open(cfg, lib, s, i, g, kind, prefix, target), id)
            == if i == id && OpenAccepted(lib, s, i, g, kind, prefix, target)
               then Some(NewMiner(NewChannel(i, kind, prefix, target), cfg.singleSubmit))
               else Local(s, id)
  {
    OpenChanges(cfg, lib, s, i, g, kind, prefix, target);
    hide NewMiner, NewChannel;
  }

  lemma FanOutProjects(lib: Library, s: Manager, order: seq<Id>, f: Fanned, id: Id)
    requires NoRepeats(order)
    ensures Local(Routing.FanOut(lib, s, order, f).0, id)
            == if id in Reached(s, order) && IsOpen(s, id)
               then Some(Handle(lib, Local(s, id).value,
                                if id in s.standard then AskedOfStandard(f) else AskedOfExtended(f)).0)
               else Local(s, id)
  {
    FanOutChangesExactlyTheReached(lib, s, order, f, id);
    hide Handle, Routing.FanOut, Reached;
  }

  lemma CloseProjects(s: Manager, i: Id, id: Id)
    requires OneKind(s)
    ensures Local(Close(s, i), id) == if id in Addressed(s, i) then None else Local(s, id)
  {
  }

  /** A poisoned channel takes no request, whether or not the error is returned. */
  lemma PoisonedHandleDoesNothing(lib: Library, m: Miner, r: Request)
    ensures m.poisoned ==> Handle(lib, m, r) == (m, Poisoned)
    ensures Handle(lib, m, r).1 == Poisoned <==> m.poisoned
  {
  }

  lemma AskProjects(cfg: Config, lib: Library, s: Manager, id: Id, e: Event)
    requires OneKind(s)
    requires e.Receive? && (e.msg.SetPrefix? || e.msg.SharesSuccess? || e.msg.SharesError? || e.msg.NewMiningJob?)
    ensures Local(Next(cfg, lib, s, e).0, id) == Alone(cfg, lib, Local(s, id), InputTo(cfg, lib, s, id, e))
  {
    forall m: Miner, r: Request { PoisonedHandleDoesNothing(lib, m, r); }
    hide Handle, Apply;
  }

  /** One event, seen from one channel. */
  lemma NextProjects(cfg: Config, lib: Library, s: Manager, id: Id, e: Event)
    requires IndexInv(s) && OneKind(s) && ValidEvent(s, e) && Fresh(s, e)
    ensures Local(Next(cfg, lib, s, e).0, id) == Alone(cfg, lib, Local(s, id), InputTo(cfg, lib, s, id, e))
  {
    hide Handle, Routing.FanOut, Reached, Open, Close, Step, IndexInv;
    match e {
      case Background(_, _, _) =>
      case Receive(msg, order) =>
        match msg {
          case OpenStandard(i, g, p, t) => OpenProjects(cfg, lib, s, id, i, g, Standard, p, t);
          case OpenExtended(i, g, p, t, r) => OpenProjects(cfg, lib, s, id, i, g, Extended(r), p, t);
          case CloseChannel(i) => CloseProjects(s, i, id);
          case NewExtendedJob(_, j) => FanOutProjects(lib, s, order, FanJob(j), id);
          case SetNewPrevHash(_, p) => FanOutProjects(lib, s, order, FanPrevHash(p), id);
          case SetTarget(_, t) => FanOutProjects(lib, s, order, FanTarget(t), id);
          case SetPrefix(_, _) => AskProjects(cfg, lib, s, id, e);
          case SharesSuccess(_, _, _) => AskProjects(cfg, lib, s, id, e);
          case SharesError(_, _) => AskProjects(cfg, lib, s, id, e);
          case NewMiningJob(_, _) => AskProjects(cfg, lib, s, id, e);
          case _ =>
        }
    }
  }

  /** The fan-out a message makes, if any. */
  function FanOf(cfg: Config, s: Manager, msg: Message): Option<Fanned> {
    match msg
    case NewExtendedJob(id, j) => if !cfg.requiresStandardJobs && id in s.groups then Some(FanJob(j)) else None
    case SetNewPrevHash(_, p) => Some(FanPrevHash(p))
    case SetTarget(_, t) => Some(FanTarget(t))
    case _ => None
  }

  /** A message that ends in no error reaches every channel it addresses: a SetNewPrevHash or SetTarget
      as it is, a group's extended job as one to derive on a standard channel and one to store on an
      extended channel. */
  lemma AddressedChannelsAreAsked(cfg: Config, lib: Library, s: Manager, id: Id, e: Event)
    requires e.Receive? && ValidEvent(s, e) && FanOf(cfg, s, e.msg).Some? && Next(cfg, lib, s, e).1.Continue?
    ensures InputTo(cfg, lib, s, id, e)
            == When(id in Addressed(s, e.msg.id),
                    match e.msg
                    case SetNewPrevHash(_, p) => Asked(PrevHash(p))
                    case SetTarget(_, t) => Asked(Target(t))
                    case NewExtendedJob(_, j) => Asked(if id in s.standard then GroupJob(j) else ExtendedJob(j))
                    case _ => Nothing)
  {
    ReachesAllUnlessPoisoned(lib, s, e.order, FanOf(cfg, s, e.msg).value);
    hide Routing.FanOut, Reached;
  }

  /** After a group's NewExtendedMiningJob that gave no error each standard member has handled it as a
      job to derive, each extended member as a job to store, and no other channel has changed. */
  lemma GroupJobReachesTheMembers(cfg: Config, lib: Library, s: Manager, g: Id, j: JobMessage, order: seq<Id>)
    requires !cfg.requiresStandardJobs && g in s.groups && Enumerates(order, s.groups[g].members)
    requires HandleMessage(cfg, lib, s, NewExtendedJob(g, j), order).1 == Continue
    ensures var s' := HandleMessage(cfg, lib, s, NewExtendedJob(g, j), order).0;
            && s'.groups == s.groups && s'.standard.Keys == s.standard.Keys && s'.extended.Keys == s.extended.Keys
            && (forall c :: c in s.standard ==>
                  s'.standard[c] == if c in s.groups[g].members then Handle(lib, s.standard[c], GroupJob(j)).0
                                    else s.standard[c])
            && (forall c :: c in s.extended && c !in s.standard ==>
                  s'.extended[c] == if c in s.groups[g].members then Handle(lib, s.extended[c], ExtendedJob(j)).0
                                    else s.extended[c])
  {
    ReachesAllUnlessPoisoned(lib, s, order, FanJob(j));
    forall c { FanOutChangesExactlyTheReached(lib, s, order, FanJob(j), c); }
    FanOutChangesExactlyTheReached(lib, s, order, FanJob(j), g);
    hide Handle, Routing.FanOut, Reached;
  }

  /** What a member holds then: a standard one the job it derived with its own prefix, an extended one
      the job as sent; under its id if it is a future job, and as the active job otherwise. */
  lemma MembersHoldTheGroupJob(lib: Library, m: Miner, j: JobMessage)
    requires !m.poisoned
    ensures var n := Handle(lib, m, GroupJob(j)).0;
            match lib.derive(m.channel.prefix, j)
            case Some(body) => HoldsJob(m, n, Job(j.jobId, body, true), j.minNtime)
            case None => n == m
    ensures var n := Handle(lib, m, ExtendedJob(j)).0;
            if lib.acceptsJob(m.channel, j) then HoldsJob(m, n, Job(j.jobId, j.body, true), j.minNtime) else n == m
    ensures var n := Handle(lib, m, NewJob(j)).0;
            if lib.acceptsJob(m.channel, j) then HoldsJob(m, n, Job(j.jobId, j.body, false), j.minNtime) else n == m
  {
  }

  /** The job is stored and nothing else changes; or it is active and a task has been spawned for it. */
  predicate HoldsJob(m: Miner, n: Miner, job: Job, minNtime: Option<u32>) {
    match minNtime
    case None => n == m.(channel := m.channel.(future := m.channel.future[job.id := job]))
    case Some(ntime) =>
      && n.channel == m.channel.(active := Some(ActiveJob(job, ntime)))
      && |n.tasks| == |m.tasks| + 1 && n.tasks[|m.tasks|].phase == Spawned && m.current in n.cancelled
  }

  // ----- the messages that end a run -----

  predicate PoisonedIn(miners: map<Id, Miner>, id: Id) {
    id in miners && miners[id].poisoned
  }

  /** The vetting of a list comes to a poisoned lock before it comes to a reason to refuse the list. */
  ghost predicate VetMeetsPoison(s: Manager, ids: seq<Id>) {
    exists k, size :: 0 <= k < |ids| && SizeOf(s, ids[k]) == SizePoisoned && AllOfSize(s, ids[..k], size)
  }

  /** The lock of some channel whose state the message has to read or write is poisoned. */
  ghost predicate MeetsPoison(lib: Library, s: Manager, msg: Message) {
    match msg
    case SetPrefix(id, p) => lib.wirePrefix(p) && (PoisonedIn(s.standard, id) || PoisonedIn(s.extended, id))
    case NewMiningJob(id, _) => PoisonedIn(s.standard, id)
    case NewExtendedJob(id, _) =>
      if id in s.groups then exists c :: c in s.groups[id].members && !Healthy(s, c) else PoisonedIn(s.extended, id)
    case SetNewPrevHash(id, _) => exists c :: c in Addressed(s, id) && !Healthy(s, c)
    case SetTarget(id, _) => exists c :: c in Addressed(s, id) && !Healthy(s, c)
    case SetGroup(g, ids) => !IsOpen(s, g) && VetMeetsPoison(s, ids)
    case _ => false
  }

  /** The vetting gets stuck exactly at a poisoned lock all before which were open and of one size. */
  lemma {:induction false} VetSticksAgainst(s: Manager, ids: seq<Id>, acc: Group, size: nat)
    requires acc.size == Some(size)
    ensures Vet(s, ids, acc).Stuck?
            <==> exists k :: 0 <= k < |ids| && SizeOf(s, ids[k]) == SizePoisoned && AllOfSize(s, ids[..k], size)
    decreases |ids|
  {
    if ids != [] {
      forall k | 0 < k < |ids|
        ensures AllOfSize(s, ids[..k], size)
                <==> SizeOf(s, ids[0]) == Size(size) && AllOfSize(s, ids[1..][..k - 1], size)
      {
        AllOfSizeSplits(s, ids[..k], size);
        assert ids[..k][1..] == ids[1..][..k - 1];
      }
      if SizeOf(s, ids[0]) == SizePoisoned { assert AllOfSize(s, ids[..0], size); }
      if SizeOf(s, ids[0]) == Size(size) {
        VetSticksAgainst(s, ids[1..], AddMember(acc, ids[0], size).value, size);
        forall k | 0 <= k < |ids| - 1 ensures ids[1..][k] == ids[k + 1] && ids[1..][..k] == ids[1..][..(k + 1) - 1] {
        }
      }
      hide AllOfSize;
    }
  }

  lemma AllOfSizeSplits(s: Manager, ids: seq<Id>, size: nat)
    requires ids != []
    ensures AllOfSize(s, ids, size) <==> SizeOf(s, ids[0]) == Size(size) && AllOfSize(s, ids[1..], size)
  {
    if SizeOf(s, ids[0]) == Size(size) && AllOfSize(s, ids[1..], size) {
      forall i | 0 <= i < |ids| ensures SizeOf(s, ids[i]) == Size(size) {
        if i > 0 { assert ids[i] == ids[1..][i - 1]; }
      }
    }
  }

  lemma VetSticksExactly(s: Manager, ids: seq<Id>)
    ensures Vet(s, ids, EMPTY_GROUP).Stuck? <==> VetMeetsPoison(s, ids)
  {
    if ids != [] {
      if SizeOf(s, ids[0]).Size? {
        var size := SizeOf(s, ids[0]).size;
        var acc := Group({} + {ids[0]}, Some(size));
        VetSticksAgainst(s, ids, acc, size);
      } else if SizeOf(s, ids[0]) == SizePoisoned {
        assert AllOfSize(s, ids[..0], 0);
      }
    }
  }

  /** What every message returns. The messages that end the run are exactly the custom-job replies,
      extended jobs and regroupings when standard jobs are required, and the messages that meet a
      poisoned lock. */
  lemma ErrorsExactly(cfg: Config, lib: Library, s: Manager, msg: Message, order: seq<Id>)
    requires Enumerates(order, Visits(s, msg))
    ensures HandleMessage(cfg, lib, s, msg, order).1
            == if msg.CustomJobReply? then Fatal(UnexpectedMessage)
               else if cfg.requiresStandardJobs && (msg.NewExtendedJob? || msg.SetGroup?) then Fatal(StandardJobsOnly)
               else if MeetsPoison(lib, s, msg) then Fatal(PoisonLock)
               else Continue
  {
    forall m: Miner, r: Request { HandleKeepsPoison(lib, m, r); }
    hide Handle, Routing.FanOut, Open, Close, Redefine, Vet, VetMeetsPoison, Healthy;
    match msg {
      case NewExtendedJob(_, j) => FanOutFailsExactly(lib, s, order, FanJob(j));
      case SetNewPrevHash(_, p) => FanOutFailsExactly(lib, s, order, FanPrevHash(p));
      case SetTarget(_, t) => FanOutFailsExactly(lib, s, order, FanTarget(t));
      case SetGroup(_, ids) => VetSticksExactly(s, ids);
      case _ =>
    }
  }

  lemma FanOutThatReachesNone(lib: Library, s: Manager, order: seq<Id>, f: Fanned)
    requires NoRepeats(order) && Reached(s, order) == {}
    ensures Routing.FanOut(lib, s, order, f).0 == s
  {
    FanOutDelivers(lib, s, order, f);
    hide Handle, Reached, Routing.FanOut;
  }

  lemma SoundLocksGiveNoError(cfg: Config, lib: Library, s: Manager, msg: Message, order: seq<Id>)
    requires PoisonFree(s) && Enumerates(order, Visits(s, msg))
    ensures HandleMessage(cfg, lib, s, msg, order).1 != Fatal(PoisonLock)
  {
    ErrorsExactly(cfg, lib, s, msg, order);
    hide HandleMessage;
  }

  /** A message that ends the run changes nothing, but for a fan-out that reached some channels before
      the poisoned lock, and a prefix taken by the sound one of two channels under one id. */
  lemma ErrorsChangeNothing(cfg: Config, lib: Library, s: Manager, msg: Message, order: seq<Id>)
    requires Enumerates(order, Visits(s, msg)) && HandleMessage(cfg, lib, s, msg, order).1.Fatal?
    requires PoisonFree(s) || (OneKind(s) && (FanOf(cfg, s, msg).Some? ==> Reached(s, order) == {}))
    ensures HandleMessage(cfg, lib, s, msg, order).0 == s
  {
    if PoisonFree(s) { SoundLocksGiveNoError(cfg, lib, s, msg, order); }
    forall m: Miner, r: Request { PoisonedHandleDoesNothing(lib, m, r); }
    var f := FanOf(cfg, s, msg);
    if f.Some? {
      FanOutFailsExactly(lib, s, order, f.value);
      if !PoisonFree(s) { FanOutThatReachesNone(lib, s, order, f.value); }
    }
    hide Handle, Routing.FanOut, Open, Close, Redefine, Vet, Reached, PoisonFree;
  }

  // ----- whole runs -----

  /** The members are visited in some order, no message opens an open id, and no lock is poisoned. */
  ghost predicate SoundEvent(s: Manager, e: Event) {
    ValidEvent(s, e) && Fresh(s, e) && (e.Background? ==> !e.step.Poison?)
  }

  ghost predicate SoundRun(cfg: Config, lib: Library, s: Manager, es: seq<Event>)
    decreases |es|
  {
    es == [] ||
    (SoundEvent(s, es[0]) && var (s', o) := Next(cfg, lib, s, es[0]); o.Fatal? || SoundRun(cfg, lib, s', es[1..]))
  }

  ghost predicate SoundState(s: Manager) {
    IndexInv(s) && OneKind(s) && PoisonFree(s)
  }

  lemma AloneKeepsPoisonFree(cfg: Config, lib: Library, o: Option<Miner>, i: Input)
    requires (o.Some? ==> !o.value.poisoned) && (i.Stepped? ==> !i.step.Poison?)
    ensures var o' := Alone(cfg, lib, o, i); o'.Some? ==> !o'.value.poisoned
  {
    match i {
      case Asked(r) => if o.Some? { HandleKeepsPoison(lib, o.value, r); }
      case Stepped(l) =>
        if o.Some? && l.Take? { ActFrame(lib, o.value, l.task, l.act); }
        hide ActStep, Apply;
      case _ =>
    }
  }

  lemma NextKeepsSound(cfg: Config, lib: Library, s: Manager, e: Event)
    requires SoundState(s) && SoundEvent(s, e)
    ensures SoundState(Next(cfg, lib, s, e).0)
  {
    var s' := Next(cfg, lib, s, e).0;
    NextKeepsIndex(cfg, lib, s, e);
    NextKeepsOneKind(cfg, lib, s, e);
    hide Next, Alone;
    forall id ensures Local(s', id).Some? ==> !Local(s', id).value.poisoned {
      NextProjects(cfg, lib, s, id, e);
      AloneKeepsPoisonFree(cfg, lib, Local(s, id), InputTo(cfg, lib, s, id, e));
    }
    forall id | id in s'.standard ensures !s'.standard[id].poisoned { assert Local(s', id).Some?; }
    forall id | id in s'.extended ensures !s'.extended[id].poisoned { assert Local(s', id).Some?; }
  }

  /** The inputs a run brings to one channel, in order. */
  function InputsTo(cfg: Config, lib: Library, s: Manager, id: Id, es: seq<Event>): seq<Input>
    decreases |es|
  {
    if es == [] then [] else
    var (s', o) := Next(cfg, lib, s, es[0]);
    [InputTo(cfg, lib, s, id, es[0])] + if o.Fatal? then [] else InputsTo(cfg, lib, s', id, es[1..])
  }

  function Replay(cfg: Config, lib: Library, o: Option<Miner>, inputs: seq<Input>): Option<Miner>
    decreases |inputs|
  {
    if inputs == [] then o else Replay(cfg, lib, Alone(cfg, lib, o, inputs[0]), inputs[1..])
  }

  /** For every run with fresh ids, poisoned locks included, and every id: the channel's final state is
      the replay of its own inputs, whatever the other channels hold and however their requests fared. */
  lemma {:induction false} RunProjects(cfg: Config, lib: Library, s: Manager, id: Id, es: seq<Event>)
    requires IndexInv(s) && OneKind(s) && ValidRun(cfg, lib, s, es) && FreshRun(cfg, lib, s, es)
    ensures Local(RunEvents(cfg, lib, s, es), id) == Replay(cfg, lib, Local(s, id), InputsTo(cfg, lib, s, id, es))
    decreases |es|
  {
    if es != [] {
      NextProjects(cfg, lib, s, id, es[0]);
      NextKeepsIndex(cfg, lib, s, es[0]);
      NextKeepsOneKind(cfg, lib, s, es[0]);
      var (s', o) := Next(cfg, lib, s, es[0]);
      var i := InputTo(cfg, lib, s, id, es[0]);
      var rest := if o.Fatal? then [] else InputsTo(cfg, lib, s', id, es[1..]);
      hide Next, Alone, Local, InputTo, IndexInv, OneKind;
      assert ([i] + rest)[1..] == rest;
      if !o.Fatal? { RunProjects(cfg, lib, s', id, es[1..]); }
    }
  }

  lemma RunFromNothingProjects(cfg: Config, lib: Library, id: Id, es: seq<Event>)
    requires ValidRun(cfg, lib, NO_CHANNELS, es) && FreshRun(cfg, lib, NO_CHANNELS, es)
    ensures Local(RunEvents(cfg, lib, NO_CHANNELS, es), id)
            == Replay(cfg, lib, None, InputsTo(cfg, lib, NO_CHANNELS, id, es))
  {
    RunProjects(cfg, lib, NO_CHANNELS, id, es);
  }

  /** A run in which no panic occurs leaves every lock sound. */
  lemma {:induction false} SoundRunStaysSound(cfg: Config, lib: Library, s: Manager, es: seq<Event>)
    requires SoundState(s) && SoundRun(cfg, lib, s, es)
    ensures SoundState(RunEvents(cfg, lib, s, es))
    ensures ValidRun(cfg, lib, s, es) && FreshRun(cfg, lib, s, es)
    decreases |es|
  {
    if es != [] {
      NextKeepsSound(cfg, lib, s, es[0]);
      var (s', o) := Next(cfg, lib, s, es[0]);
      hide Next, SoundState;
      if !o.Fatal? { SoundRunStaysSound(cfg, lib, s', es[1..]); }
    }
  }

  /** An event that brings a channel no input leaves it exactly as it was. */
  lemma UnaddressedChannelsAreUntouched(cfg: Config, lib: Library, s: Manager, id: Id, e: Event)
    requires IndexInv(s) && OneKind(s) && ValidEvent(s, e) && Fresh(s, e) && InputTo(cfg, lib, s, id, e) == Nothing
    ensures Local(Next(cfg, lib, s, e).0, id) == Local(s, id)
  {
    NextProjects(cfg, lib, s, id, e);
  }
}
