// The two halves of the model together: in every run of the channel manager, each open channel's
// miner is one the mining-task protocol can reach, so what holds of every interleaving holds here.
module OpenMiners {
  import opened ClientChannels
  import opened MiningTasks
  import opened Routing
  import opened FineRuns
  import SnapshotCoherence
  import ShareNumbers
  import SearchSpace
  import EveryMiner

  /** Some run of the protocol, from a new channel, ends in this miner. */
  ghost predicate OnARun(lib: Library, m: Miner) {
    exists c: Channel, single: bool, ls: seq<Label> ::
      c.accounting == NO_SHARES && m == Run(lib, NewMiner(c, single), ls)
  }

  /** With no call in progress. */
  ghost predicate Reachable(lib: Library, m: Miner) {
    m.handler.Idle? && OnARun(lib, m)
  }

  lemma NewIsReachable(lib: Library, c: Channel, single: bool)
    requires c.accounting == NO_SHARES
    ensures Reachable(lib, NewMiner(c, single))
  {
    assert Run(lib, NewMiner(c, single), []) == NewMiner(c, single);
  }

  lemma RunStaysOnARun(lib: Library, m: Miner, more: seq<Label>)
    requires OnARun(lib, m)
    ensures OnARun(lib, Run(lib, m, more))
  {
    var c: Channel, single: bool, ls: seq<Label> :|
      c.accounting == NO_SHARES && m == Run(lib, NewMiner(c, single), ls);
    RunConcat(lib, NewMiner(c, single), ls, more);
  }

  lemma StepStaysOnARun(lib: Library, m: Miner, l: Label)
    requires OnARun(lib, m)
    ensures OnARun(lib, Step(lib, m, l))
  {
    var ls := [l];
    assert ls[1..] == [] && Run(lib, Step(lib, m, l), []) == Step(lib, m, l);
    assert Run(lib, m, ls) == Step(lib, m, l);
    hide Step;
    RunStaysOnARun(lib, m, ls);
  }

  lemma HandleIsReachable(lib: Library, m: Miner, r: Request)
    requires Reachable(lib, m)
    ensures Reachable(lib, Handle(lib, m, r).0)
  {
    HandleIsUninterruptedCall(lib, m, r);
    hide Handle;
    RunStaysOnARun(lib, m, CallLabels(r));
  }

  lemma BackgroundIsReachable(lib: Library, m: Miner, l: Label)
    requires Reachable(lib, m) && BackgroundLabel(l)
    ensures Reachable(lib, Step(lib, m, l))
  {
    StepStaysOnARun(lib, m, l);
    if l.Take? { ActFrame(lib, m, l.task, l.act); }
    hide ActStep;
  }

  /** Being reachable is kept by everything the manager does to a miner. */
  lemma ReachableIsKept(cfg: Config, lib: Library, p: Miner -> bool)
    requires p == ((m: Miner) => Reachable(lib, m))
    ensures EveryMiner.KeptByRequests(cfg, lib, p) && EveryMiner.KeptByBackground(lib, p)
    ensures EveryMiner.TrueOfNew(cfg, p)
  {
    forall m, r | p(m) ensures p(Handle(lib, m, r).0) { HandleIsReachable(lib, m, r); }
    forall m, l | p(m) && BackgroundLabel(l) ensures p(Step(lib, m, l)) { BackgroundIsReachable(lib, m, l); }
    forall c: Channel | c == NewChannel(c.id, c.kind, c.prefix, c.target) ensures p(NewMiner(c, cfg.singleSubmit)) {
      NewIsReachable(lib, c, cfg.singleSubmit);
    }
    hide Handle, Step, NewMiner, NewChannel, Reachable;
  }

  // ----- whatever the interleaving -----

  lemma PartStaysOnRuns(lib: Library, s: Manager, id: Id, standard: bool, l: Label)
    requires EveryMiner.All(s, m => OnARun(lib, m))
    ensures EveryMiner.All(StepIn(lib, s, id, standard, l), m => OnARun(lib, m))
  {
    if standard && id in s.standard { StepStaysOnARun(lib, s.standard[id], l); }
    if !standard && id in s.extended { StepStaysOnARun(lib, s.extended[id], l); }
    hide Step, OnARun;
  }

  lemma WholeStaysOnRuns(cfg: Config, lib: Library, s: Manager, e: Event)
    requires AllIdle(s) && EveryMiner.All(s, m => OnARun(lib, m))
    ensures EveryMiner.All(Next(cfg, lib, s, e).0, m => OnARun(lib, m))
  {
    var p := (m: Miner) => Reachable(lib, m);
    ReachableIsKept(cfg, lib, p);
    hide OnARun, Next;
    EveryMiner.NextKeepsAll(cfg, lib, s, e, p);
  }

  lemma {:induction false} FineRunStaysOnRuns(cfg: Config, lib: Library, s: Manager, es: seq<FineEvent>)
    requires EveryMiner.All(s, m => OnARun(lib, m))
    ensures EveryMiner.All(FineRun(cfg, lib, s, es), m => OnARun(lib, m))
    decreases |es|
  {
    if es != [] {
      hide Next, StepIn, EveryMiner.All, OnARun;
      match es[0] {
        case Part(id, standard, l) => PartStaysOnRuns(lib, s, id, standard, l);
        case Whole(e) => if AllIdle(s) { WholeStaysOnRuns(cfg, lib, s, e); }
      }
      FineRunStaysOnRuns(cfg, lib, FineNext(cfg, lib, s, es[0]), es[1..]);
    }
  }

  // ----- what follows for every open channel -----

  /** What the protocol guarantees of one miner between handler calls. */
  ghost predicate Guaranteed(lib: Library, m: Miner) {
    && SnapshotCoherence.Coherent(m)
    && (forall i :: 0 <= i < |m.channel.accounting.validated| ==> m.channel.accounting.validated[i].sequence == i + 1)
    && (forall j :: 0 <= j < |m.upstream| ==>
          m.upstream[j].task < |m.tasks| && SearchSpace.Hashed(lib, m.tasks[m.upstream[j].task], m.upstream[j].share)
          && m.upstream[j].share in m.channel.accounting.validated)
    && (forall i, j :: 0 <= i < j < |m.upstream| ==>
          && m.upstream[i].share.sequence != m.upstream[j].share.sequence
          && (m.upstream[i].task == m.upstream[j].task ==>
                m.upstream[i].share.sequence < m.upstream[j].share.sequence))
  }

  lemma RunIsGuaranteed(lib: Library, m: Miner)
    requires OnARun(lib, m)
    ensures Guaranteed(lib, m)
  {
    var c: Channel, single: bool, ls: seq<Label> :|
      c.accounting == NO_SHARES && m == Run(lib, NewMiner(c, single), ls);
    SnapshotCoherence.SnapshotsAreCoherent(lib, c, single, ls);
    ShareNumbers.NumbersAreConsecutiveAndSentOnce(lib, c, single, ls);
    SearchSpace.RunKeepsInv(lib, NewMiner(c, single), ls);
  }

  /** In every run of the manager, from no channels on, with task steps anywhere between messages,
      reused ids and poisoned locks included: every open channel has no call in progress and at most
      one live task, on its active job and chain tip; its accepted shares are numbered 1, 2, 3, ...;
      and whatever it sent is an accepted share with a number of its own, increasing within each
      task, for a header the sending task hashed for its job and that met that task's target. */
  lemma EveryOpenChannelIsGuaranteed(cfg: Config, lib: Library, es: seq<Event>, id: Id)
    ensures var s := RunEvents(cfg, lib, NO_CHANNELS, es);
            && (id in s.standard ==> s.standard[id].handler.Idle? && Guaranteed(lib, s.standard[id]))
            && (id in s.extended ==> s.extended[id].handler.Idle? && Guaranteed(lib, s.extended[id]))
  {
    var p := (m: Miner) => Reachable(lib, m);
    ReachableIsKept(cfg, lib, p);
    EveryMiner.RunKeepsAll(cfg, lib, NO_CHANNELS, es, p);
    var s := RunEvents(cfg, lib, NO_CHANNELS, es);
    hide RunEvents, OnARun, Guaranteed;
    if id in s.standard { RunIsGuaranteed(lib, s.standard[id]); }
    if id in s.extended { RunIsGuaranteed(lib, s.extended[id]); }
  }

  /** The same with tasks running inside a message too: whatever steps of the protocol, handler steps
      included, happen in whichever channels between and during the visits of a fan-out. */
  lemma EveryOpenChannelIsGuaranteedThroughout(cfg: Config, lib: Library, es: seq<FineEvent>, id: Id)
    ensures var s := FineRun(cfg, lib, NO_CHANNELS, es);
            && (id in s.standard ==> Guaranteed(lib, s.standard[id]))
            && (id in s.extended ==> Guaranteed(lib, s.extended[id]))
  {
    FineRunStaysOnRuns(cfg, lib, NO_CHANNELS, es);
    var s := FineRun(cfg, lib, NO_CHANNELS, es);
    hide FineRun, OnARun, Guaranteed;
    if id in s.standard { RunIsGuaranteed(lib, s.standard[id]); }
    if id in s.extended { RunIsGuaranteed(lib, s.extended[id]); }
  }
}
