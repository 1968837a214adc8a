// Runs of the channel manager in which handler calls are taken apart: the three steps of a call are
// steps like any other, so tasks of any channel may run between the visits of a fan-out, and inside
// one.
module FineRuns {
  import opened Wrappers
  import opened ClientChannels
  import opened MiningTasks
  import opened Routing

  /** A message or background step as a whole, or one step of one miner, be it a step of a handler call. */
  datatype FineEvent = Whole(event: Event) | Part(id: Id, standard: bool, step: Label)

  ghost predicate AllIdle(s: Manager) {
    && (forall id :: id in s.standard ==> s.standard[id].handler.Idle?)
    && (forall id :: id in s.extended ==> s.extended[id].handler.Idle?)
  }

  /** The manager takes up a message only when no handler call is in progress. */
  ghost function FineNext(cfg: Config, lib: Library, s: Manager, e: FineEvent): Manager {
    match e
    case Whole(event) => if AllIdle(s) then Next(cfg, lib, s, event).0 else s
    case Part(id, standard, l) => StepIn(lib, s, id, standard, l)
  }

  ghost function FineRun(cfg: Config, lib: Library, s: Manager, es: seq<FineEvent>): Manager
    decreases |es|
  {
    if es == [] then s else FineRun(cfg, lib, FineNext(cfg, lib, s, es[0]), es[1..])
  }

  /** One handler call in one channel, in parts. */
  function CallParts(s: Manager, id: Id, f: Fanned): seq<FineEvent> {
    var r := RequestFor(f, id in s.standard);
    [Part(id, id in s.standard, Write(r)), Part(id, id in s.standard, Revoke), Part(id, id in s.standard, Respawn)]
  }

  /** The visits of a fan-out, in parts; other parts may be put anywhere in between. */
  function FanOutParts(lib: Library, s: Manager, order: seq<Id>, f: Fanned): seq<FineEvent>
    decreases |order|
  {
    if order == [] then [] else
    var (s', o) := Deliver(lib, s, order[0], f);
    CallParts(s, order[0], f) + if o.Fatal? then [] else FanOutParts(lib, s', order[1..], f)
  }

  lemma {:induction false} FineRunConcat(cfg: Config, lib: Library, s: Manager, a: seq<FineEvent>, b: seq<FineEvent>)
    ensures FineRun(cfg, lib, s, a + b) == FineRun(cfg, lib, FineRun(cfg, lib, s, a), b)
    decreases |a|
  {
    hide FineNext;
    if a == [] {
      assert a + b == b;
    } else {
      assert (a + b)[0] == a[0] && (a + b)[1..] == a[1..] + b;
      FineRunConcat(cfg, lib, FineNext(cfg, lib, s, a[0]), a[1..], b);
    }
  }

  lemma CallInSteps(lib: Library, m: Miner, r: Request)
    requires m.handler.Idle?
    ensures Step(lib, Step(lib, Step(lib, m, Write(r)), Revoke), Respawn) == Handle(lib, m, r).0
    ensures Handle(lib, m, r).0.handler.Idle?
  {
    hide Apply;
  }

  /** The state after the three steps of a call. */
  function AfterCall(lib: Library, s: Manager, id: Id, standard: bool, r: Request): Manager {
    StepIn(lib, StepIn(lib, StepIn(lib, s, id, standard, Write(r)), id, standard, Revoke), id, standard, Respawn)
  }

  lemma CallPartsRun(cfg: Config, lib: Library, s: Manager, id: Id, f: Fanned)
    ensures FineRun(cfg, lib, s, CallParts(s, id, f))
            == AfterCall(lib, s, id, id in s.standard, RequestFor(f, id in s.standard))
  {
    var es := CallParts(s, id, f);
    hide StepIn, Next;
    assert es[1..][1..][1..] == [];
    var s1 := FineNext(cfg, lib, s, es[0]);
    var s2 := FineNext(cfg, lib, s1, es[1]);
    var s3 := FineNext(cfg, lib, s2, es[2]);
    assert FineRun(cfg, lib, s2, es[1..][1..]) == FineRun(cfg, lib, s3, []);
    assert FineRun(cfg, lib, s1, es[1..]) == s3;
    assert FineRun(cfg, lib, s, es) == s3;
  }

  lemma DeliverInParts(cfg: Config, lib: Library, s: Manager, id: Id, f: Fanned)
    requires AllIdle(s)
    ensures FineRun(cfg, lib, s, CallParts(s, id, f)) == Deliver(lib, s, id, f).0
    ensures AllIdle(Deliver(lib, s, id, f).0)
  {
    CallPartsRun(cfg, lib, s, id, f);
    var standard := id in s.standard;
    var r := RequestFor(f, standard);
    hide FineRun, Step, Handle, RequestFor, CallParts;
    if standard {
      CallInSteps(lib, s.standard[id], r);
      assert AfterCall(lib, s, id, true, r).standard == s.standard[id := Handle(lib, s.standard[id], r).0];
    } else if id in s.extended {
      CallInSteps(lib, s.extended[id], r);
      assert AfterCall(lib, s, id, false, r).extended == s.extended[id := Handle(lib, s.extended[id], r).0];
    }
  }

  /** A fan-out is its parts run without interruption. */
  lemma {:induction false} FanOutInParts(cfg: Config, lib: Library, s: Manager, order: seq<Id>, f: Fanned)
    requires AllIdle(s)
    ensures FineRun(cfg, lib, s, FanOutParts(lib, s, order, f)) == Routing.FanOut(lib, s, order, f).0
    ensures AllIdle(Routing.FanOut(lib, s, order, f).0)
    decreases |order|
  {
    if order != [] {
      DeliverInParts(cfg, lib, s, order[0], f);
      var (s', o) := Deliver(lib, s, order[0], f);
      var call := CallParts(s, order[0], f);
      hide Deliver, AllIdle, CallParts;
      assert call + [] == call;
      if !o.Fatal? {
        FanOutInParts(cfg, lib, s', order[1..], f);
        FineRunConcat(cfg, lib, s, call, FanOutParts(lib, s', order[1..], f));
        hide FineRun;
      }
    }
  }

  /** The steps among these parts that are taken in one channel. */
  function StepsIn(es: seq<FineEvent>, id: Id, standard: bool): seq<Label> {
    if es == [] then []
    else (if es[0].Part? && es[0].id == id && es[0].standard == standard then [es[0].step] else [])
         + StepsIn(es[1..], id, standard)
  }

  /** The miner of this id and kind. */
  function MinerOf(s: Manager, id: Id, standard: bool): Option<Miner> {
    var miners := if standard then s.standard else s.extended;
    if id in miners then Some(miners[id]) else None
  }

  lemma RunOfFirst(lib: Library, m: Miner, l: Label, ls: seq<Label>)
    ensures Run(lib, m, [l] + ls) == Run(lib, Step(lib, m, l), ls)
  {
    assert ([l] + ls)[1..] == ls;
  }

  /** Whatever parts are put between and inside the visits of a message, in whatever order: no group
      changes, no channel opens or closes, and each channel ends as its own steps alone leave it. */
  lemma {:induction false} PartsProject(
    cfg: Config, lib: Library, s: Manager, es: seq<FineEvent>, id: Id, standard: bool)
    requires forall i :: 0 <= i < |es| ==> es[i].Part?
    ensures FineRun(cfg, lib, s, es).groups == s.groups
    ensures MinerOf(FineRun(cfg, lib, s, es), id, standard)
            == match MinerOf(s, id, standard)
               case None => None
               case Some(m) => Some(Run(lib, m, StepsIn(es, id, standard)))
    decreases |es|
  {
    if es != [] {
      var s' := FineNext(cfg, lib, s, es[0]);
      var rest := StepsIn(es[1..], id, standard);
      PartsProject(cfg, lib, s', es[1..], id, standard);
      var own := es[0].id == id && es[0].standard == standard;
      hide Step, Run, Next;
      if MinerOf(s, id, standard).Some? {
        var m := MinerOf(s, id, standard).value;
        assert MinerOf(s', id, standard) == Some(if own then Step(lib, m, es[0].step) else m);
        RunOfFirst(lib, m, es[0].step, rest);
        assert [] + rest == rest;
      }
    }
  }
}
