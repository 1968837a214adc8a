// A measure of single miners that a message's requests do not move is one the message leaves alone
// on every channel: whichever channels it visits, in whatever order, poisoned locks or not.
module Measures {
  import opened ClientChannels
  import opened Wrappers
  import opened MiningTasks
  import opened Routing
  import opened GroupIndex
  import opened Projection

  /** The measure of the channel an id finds. */
  function LocalOf<T>(s: Manager, id: Id, q: Miner -> T): Option<T> {
    if Local(s, id).Some? then Some(q(Local(s, id).value)) else None
  }

  /** Whether a message makes requests of this sort. */
  predicate Asks(msg: Message, r: Request) {
    match msg
    case SetPrefix(_, _) => r.Prefix?
    case SharesSuccess(_, _, _) => r.Acknowledge?
    case SharesError(_, _) => r.Reject?
    case NewMiningJob(_, _) => r.NewJob?
    case NewExtendedJob(_, _) => r.GroupJob? || r.ExtendedJob?
    case SetNewPrevHash(_, _) => r.PrevHash?
    case SetTarget(_, _) => r.Target?
    case _ => false
  }

  ghost predicate Unmoved<T(!new)>(lib: Library, msg: Message, q: Miner -> T) {
    forall m, r :: Asks(msg, r) ==> q(Handle(lib, m, r).0) == q(m)
  }

  ghost predicate UnmovedByTasks<T(!new)>(lib: Library, q: Miner -> T) {
    forall m, l :: BackgroundLabel(l) ==> q(Step(lib, m, l)) == q(m)
  }

  lemma AskLeaves<T(!new)>(lib: Library, s: Manager, id: Id, r: Request, c: Id, msg: Message, q: Miner -> T)
    requires Unmoved(lib, msg, q) && Asks(msg, r)
    ensures id in s.standard ==> LocalOf(AskStandard(lib, s, id, r).0, c, q) == LocalOf(s, c, q)
    ensures id in s.extended ==> LocalOf(AskExtended(lib, s, id, r).0, c, q) == LocalOf(s, c, q)
  {
    hide Handle;
  }

  lemma {:induction false} FanOutLeaves<T(!new)>(
    lib: Library, s: Manager, order: seq<Id>, f: Fanned, c: Id, msg: Message, q: Miner -> T)
    requires Unmoved(lib, msg, q) && Asks(msg, RequestFor(f, true)) && Asks(msg, RequestFor(f, false))
    ensures LocalOf(Routing.FanOut(lib, s, order, f).0, c, q) == LocalOf(s, c, q)
    decreases |order|
  {
    if order != [] {
      AskLeaves(lib, s, order[0], RequestFor(f, true), c, msg, q);
      AskLeaves(lib, s, order[0], RequestFor(f, false), c, msg, q);
      hide AskStandard, AskExtended, LocalOf, Unmoved;
      var (s', o) := Deliver(lib, s, order[0], f);
      if !o.Fatal? { FanOutLeaves(lib, s', order[1..], f, c, msg, q); }
    }
  }

  lemma SetPrefixLeaves<T(!new)>(lib: Library, s: Manager, id: Id, p: Bytes, c: Id, msg: Message, q: Miner -> T)
    requires Unmoved(lib, msg, q) && Asks(msg, Prefix(p))
    ensures LocalOf(SetPrefixOn(lib, s, id, p).0, c, q) == LocalOf(s, c, q)
  {
    AskLeaves(lib, s, id, Prefix(p), c, msg, q);
    if id in s.standard {
      var s1 := AskStandard(lib, s, id, Prefix(p)).0;
      assert s1.extended == s.extended by { hide Handle; }
      AskLeaves(lib, s1, id, Prefix(p), c, msg, q);
    }
    hide AskStandard, AskExtended, LocalOf, Unmoved;
  }

  /** A message that opens and closes nothing. */
  lemma MessageLeaves<T(!new)>(
    cfg: Config, lib: Library, s: Manager, msg: Message, order: seq<Id>, c: Id, q: Miner -> T)
    requires Unmoved(lib, msg, q) && !Opens(msg) && !msg.CloseChannel?
    ensures LocalOf(HandleMessage(cfg, lib, s, msg, order).0, c, q) == LocalOf(s, c, q)
  {
    hide AskStandard, AskExtended, SetPrefixOn, Routing.FanOut, Regroup, LocalOf, Unmoved;
    match msg {
      case SetPrefix(id, p) => SetPrefixLeaves(lib, s, id, p, c, msg, q);
      case SharesSuccess(id, n, w) => AskLeaves(lib, s, id, Acknowledge(n, w), c, msg, q);
      case SharesError(id, code) => AskLeaves(lib, s, id, Reject(code), c, msg, q);
      case NewMiningJob(id, j) => AskLeaves(lib, s, id, NewJob(j), c, msg, q);
      case NewExtendedJob(id, j) =>
        AskLeaves(lib, s, id, ExtendedJob(j), c, msg, q);
        FanOutLeaves(lib, s, order, FanJob(j), c, msg, q);
      case SetNewPrevHash(_, p) => FanOutLeaves(lib, s, order, FanPrevHash(p), c, msg, q);
      case SetTarget(_, t) => FanOutLeaves(lib, s, order, FanTarget(t), c, msg, q);
      case SetGroup(g, ids) => RegroupLeaves(cfg, s, g, ids, c, q);
      case _ =>
    }
  }

  lemma RegroupLeaves<T>(cfg: Config, s: Manager, g: Id, ids: seq<Id>, c: Id, q: Miner -> T)
    ensures LocalOf(Regroup(cfg, s, g, ids).0, c, q) == LocalOf(s, c, q)
  {
    hide Vet;
  }

  /** A step of some task, of the clock or of a panic. */
  lemma AdvanceLeaves<T(!new)>(lib: Library, s: Manager, id: Id, standard: bool, l: Label, c: Id, q: Miner -> T)
    requires UnmovedByTasks(lib, q)
    ensures LocalOf(Advance(lib, s, id, standard, l), c, q) == LocalOf(s, c, q)
  {
    hide Step;
  }
}
