// A property of miners that new miners have and that requests and background steps keep is one
// that every open channel's miner has, in every run of the channel manager.
module EveryMiner {
  import opened ClientChannels
  import opened MiningTasks
  import opened Routing

  ghost predicate All(s: Manager, p: Miner -> bool) {
    && (forall id :: id in s.standard ==> p(s.standard[id]))
    && (forall id :: id in s.extended ==> p(s.extended[id]))
  }

  /** The requests a manager can make: on a standard-jobs connection none that carries an extended job. */
  predicate Possible(cfg: Config, r: Request) {
    cfg.requiresStandardJobs ==> !r.GroupJob? && !r.ExtendedJob?
  }

  ghost predicate KeptByRequests(cfg: Config, lib: Library, p: Miner -> bool) {
    forall m, r :: p(m) && Possible(cfg, r) ==> p(Handle(lib, m, r).0)
  }

  ghost predicate KeptByBackground(lib: Library, p: Miner -> bool) {
    forall m, l :: p(m) && BackgroundLabel(l) ==> p(Step(lib, m, l))
  }

  ghost predicate TrueOfNew(cfg: Config, p: Miner -> bool) {
    forall c: Channel :: c == NewChannel(c.id, c.kind, c.prefix, c.target) ==> p(NewMiner(c, cfg.singleSubmit))
  }

  lemma AskKeepsAll(cfg: Config, lib: Library, s: Manager, id: Id, r: Request, p: Miner -> bool)
    requires All(s, p) && KeptByRequests(cfg, lib, p) && Possible(cfg, r)
    ensures id in s.standard ==> All(AskStandard(lib, s, id, r).0, p)
    ensures id in s.extended ==> All(AskExtended(lib, s, id, r).0, p)
  {
    hide Handle;
  }

  lemma {:induction false} FanOutKeepsAll(
    cfg: Config, lib: Library, s: Manager, order: seq<Id>, f: Fanned, p: Miner -> bool)
    requires All(s, p) && KeptByRequests(cfg, lib, p)
    requires f.FanJob? ==> !cfg.requiresStandardJobs
    ensures All(Routing.FanOut(lib, s, order, f).0, p)
    decreases |order|
  {
    if order != [] {
      AskKeepsAll(cfg, lib, s, order[0], RequestFor(f, order[0] in s.standard), p);
      hide All, KeptByRequests, AskStandard, AskExtended;
      var (s', o) := Deliver(lib, s, order[0], f);
      if !o.Fatal? { FanOutKeepsAll(cfg, lib, s', order[1..], f, p); }
    }
  }

  lemma OpenKeepsAll(
    cfg: Config, lib: Library, s: Manager, id: Id, g: Id, kind: Kind, prefix: Bytes, target: nat, p: Miner -> bool)
    requires All(s, p) && TrueOfNew(cfg, p)
    ensures All(Open(cfg, lib, s, id, g, kind, prefix, target), p)
  {
    var c := NewChannel(id, kind, prefix, target);
    assert p(NewMiner(c, cfg.singleSubmit));
    hide NewMiner, NewChannel;
  }

  lemma SetPrefixKeepsAll(cfg: Config, lib: Library, s: Manager, id: Id, prefix: Bytes, p: Miner -> bool)
    requires All(s, p) && KeptByRequests(cfg, lib, p)
    ensures All(SetPrefixOn(lib, s, id, prefix).0, p)
  {
    AskKeepsAll(cfg, lib, s, id, Prefix(prefix), p);
    if id in s.standard {
      AskKeepsAll(cfg, lib, AskStandard(lib, s, id, Prefix(prefix)).0, id, Prefix(prefix), p);
    }
    hide All, KeptByRequests, Handle;
  }

  lemma NextKeepsAll(cfg: Config, lib: Library, s: Manager, e: Event, p: Miner -> bool)
    requires All(s, p) && KeptByRequests(cfg, lib, p) && KeptByBackground(lib, p) && TrueOfNew(cfg, p)
    ensures All(Next(cfg, lib, s, e).0, p)
  {
    hide Handle, Routing.FanOut, Open, Step, SetPrefixOn, AskStandard, AskExtended, KeptByRequests, TrueOfNew;
    match e {
      case Background(_, _, _) =>
      case Receive(msg, order) =>
        match msg {
          case OpenStandard(id, g, b, t) => OpenKeepsAll(cfg, lib, s, id, g, Standard, b, t, p);
          case OpenExtended(id, g, b, t, r) => OpenKeepsAll(cfg, lib, s, id, g, Extended(r), b, t, p);
          case SetPrefix(id, b) => SetPrefixKeepsAll(cfg, lib, s, id, b, p);
          case SharesSuccess(id, n, w) => AskKeepsAll(cfg, lib, s, id, Acknowledge(n, w), p);
          case SharesError(id, code) => AskKeepsAll(cfg, lib, s, id, Reject(code), p);
          case NewMiningJob(id, j) => AskKeepsAll(cfg, lib, s, id, NewJob(j), p);
          case NewExtendedJob(id, j) =>
            if !cfg.requiresStandardJobs {
              AskKeepsAll(cfg, lib, s, id, ExtendedJob(j), p);
              FanOutKeepsAll(cfg, lib, s, order, FanJob(j), p);
            }
          case SetNewPrevHash(_, h) => FanOutKeepsAll(cfg, lib, s, order, FanPrevHash(h), p);
          case SetTarget(_, t) => FanOutKeepsAll(cfg, lib, s, order, FanTarget(t), p);
          case _ =>
        }
    }
  }

  lemma {:induction false} RunKeepsAll(cfg: Config, lib: Library, s: Manager, es: seq<Event>, p: Miner -> bool)
    requires All(s, p) && KeptByRequests(cfg, lib, p) && KeptByBackground(lib, p) && TrueOfNew(cfg, p)
    ensures All(RunEvents(cfg, lib, s, es), p)
    decreases |es|
  {
    if es != [] {
      NextKeepsAll(cfg, lib, s, es[0], p);
      var (s', o) := Next(cfg, lib, s, es[0]);
      hide Next, All, KeptByRequests, KeptByBackground, TrueOfNew;
      if !o.Fatal? { RunKeepsAll(cfg, lib, s', es[1..], p); }
    }
  }
}
