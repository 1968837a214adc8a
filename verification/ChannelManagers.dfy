// The channel manager as the source keeps it: maps from ids to the open channels' miners and to
// the groups, and one method per mining message. Each method is proved to do exactly what the
// routing specification says of its message.
module ChannelManagers {
  import opened ClientChannels
  import opened MiningTasks
  import opened Routing
  import opened ChannelMiners
  import GroupIndex

  ghost function Views(miners: map<Id, ChannelMiner>): map<Id, Miner>
    reads miners.Values
  {
    map id | id in miners :: miners[id].View()
  }

  lemma ViewsInsert(miners: map<Id, ChannelMiner>, id: Id, m: ChannelMiner)
    ensures Views(miners[id := m]) == Views(miners)[id := m.View()]
  {
  }

  lemma ViewsRemove(miners: map<Id, ChannelMiner>, id: Id)
    ensures Views(miners).Keys == miners.Keys
    ensures Views(miners - {id}) == Views(miners) - {id}
  {
  }

  twostate lemma ViewsUntouched(miners: map<Id, ChannelMiner>)
    requires forall id :: id in miners ==> old(allocated(miners[id])) && unchanged(miners[id])
    ensures old(allocated(miners)) && Views(miners) == old(Views(miners))
  {
  }

  class ChannelManager {
    const cfg: Config
    var standardChannels: map<Id, ChannelMiner>
    var extendedChannels: map<Id, ChannelMiner>
    var groupChannels: map<Id, Group>

    /** Every open channel has a miner of its own. */
    ghost predicate Valid()
      reads this
    {
      && (forall i, j :: i in standardChannels && j in standardChannels && i != j ==>
            standardChannels[i] != standardChannels[j])
      && (forall i, j :: i in extendedChannels && j in extendedChannels && i != j ==>
            extendedChannels[i] != extendedChannels[j])
      && (forall i, j :: i in standardChannels && j in extendedChannels ==> standardChannels[i] != extendedChannels[j])
    }

    ghost function Miners(): set<ChannelMiner>
      reads this
    {
      standardChannels.Values + extendedChannels.Values
    }

    ghost function View(): Manager
      reads this, standardChannels.Values, extendedChannels.Values
    {
      Manager(Views(standardChannels), Views(extendedChannels), groupChannels)
    }

    constructor (cfg: Config)
      ensures Valid() && View() == NO_CHANNELS && this.cfg == cfg
    {
      this.cfg := cfg;
      standardChannels, extendedChannels, groupChannels := map[], map[], map[];
    }

    // ----- lookups -----

    /** The addressed channels, in an arbitrary order. */
    method AddressedChannels(id: Id) returns (ids: seq<Id>)
      ensures Enumerates(ids, Addressed(View(), id))
    {
      if id !in groupChannels {
        return [id];
      }
      var rest := groupChannels[id].members;
      ids := [];
      while rest != {}
        invariant rest <= groupChannels[id].members
        invariant Enumerates(ids, groupChannels[id].members - rest)
      {
        var next :| next in rest;
        assert Elements(ids + [next]) == Elements(ids) + {next};
        ids, rest := ids + [next], rest - {next};
        assert groupChannels[id].members - rest == Elements(ids);
      }
    }

    method FullExtranonceSize(id: Id) returns (size: SizeReply)
      ensures size == SizeOf(View(), id)
    {
      if id in standardChannels {
        var s := standardChannels[id].FullExtranonceSize();
        return if s.None? then SizePoisoned else Size(s.value);
      }
      if id in extendedChannels {
        var s := extendedChannels[id].FullExtranonceSize();
        return if s.None? then SizePoisoned else Size(s.value);
      }
      return Unknown;
    }

    /** Keeps the groups that still have a member. */
    method RetainNonEmpty()
      modifies this`groupChannels
      ensures groupChannels == NonEmpty(old(groupChannels))
    {
      groupChannels := map g | g in groupChannels && groupChannels[g].members != {} :: groupChannels[g];
    }

    // ----- opening and closing -----

    method JoinGroup(id: Id, group: Id, size: nat) returns (joined: bool)
      modifies this`groupChannels
      ensures (View(), joined) == Routing.JoinGroup(old(View()), id, group, size)
    {
      var reinterprets := group in standardChannels || group in extendedChannels;
      if reinterprets || id == group || id in groupChannels {
        return false;
      }
      var current := if group in groupChannels then groupChannels[group] else EMPTY_GROUP;
      match AddMember(current, id, size) {
        case Some(g) =>
          groupChannels := groupChannels[group := g];
          ViewsUntouched(standardChannels);
          ViewsUntouched(extendedChannels);
          return true;
        case None =>
          RetainNonEmpty();
          ViewsUntouched(standardChannels);
          ViewsUntouched(extendedChannels);
          return false;
      }
    }

    method InsertStandard(id: Id, channel: Channel)
      requires Valid()
      modifies this`standardChannels
      ensures Valid() && fresh(Miners() - old(Miners()))
      ensures View() == old(View()).(standard := old(View()).standard[id := NewMiner(channel, cfg.singleSubmit)])
    {
      hide Views, ChannelMiner.View, NewMiner;
      var miner := new ChannelMiner(channel, cfg.singleSubmit);
      ViewsUntouched(standardChannels);
      ViewsUntouched(extendedChannels);
      ViewsInsert(standardChannels, id, miner);
      assert miner !in standardChannels.Values && miner !in extendedChannels.Values;
      standardChannels := standardChannels[id := miner];
      assert Miners() <= old(Miners()) + {miner};
    }

    method InsertExtended(id: Id, channel: Channel)
      requires Valid()
      modifies this`extendedChannels
      ensures Valid() && fresh(Miners() - old(Miners()))
      ensures View() == old(View()).(extended := old(View()).extended[id := NewMiner(channel, cfg.singleSubmit)])
    {
      hide Views, ChannelMiner.View, NewMiner;
      var miner := new ChannelMiner(channel, cfg.singleSubmit);
      ViewsUntouched(standardChannels);
      ViewsUntouched(extendedChannels);
      ViewsInsert(extendedChannels, id, miner);
      assert miner !in standardChannels.Values && miner !in extendedChannels.Values;
      extendedChannels := extendedChannels[id := miner];
      assert Miners() <= old(Miners()) + {miner};
    }

    method HandleOpenStandard(lib: Library, id: Id, group: Id, prefix: Bytes, target: nat)
      requires Valid()
      modifies this
      ensures Valid() && fresh(Miners() - old(Miners()))
      ensures View() == Open(cfg, lib, old(View()), id, group, Standard, prefix, target)
    {
      if !lib.wirePrefix(prefix) {
        return;
      }
      var channel := NewChannel(id, Standard, prefix, target);
      if !lib.opens(channel) {
        return;
      }
      var joined := JoinGroup(id, group, |prefix|);
      if !joined {
        return;
      }
      InsertStandard(id, channel);
    }

    method HandleOpenExtended(lib: Library, id: Id, group: Id, prefix: Bytes, target: nat, rollable: nat)
      requires Valid()
      modifies this
      ensures Valid() && fresh(Miners() - old(Miners()))
      ensures View() == Open(cfg, lib, old(View()), id, group, Extended(rollable), prefix, target)
    {
      if !lib.wirePrefix(prefix) {
        return;
      }
      var channel := NewChannel(id, Extended(rollable), prefix, target);
      if !lib.opens(channel) {
        return;
      }
      var joined := JoinGroup(id, group, |prefix| + rollable);
      if !joined {
        return;
      }
      InsertExtended(id, channel);
    }

    /** Removes one channel from its map, the standard one first; reports whether it was open. */
    method RemoveChannel(id: Id) returns (found: bool)
      requires Valid()
      modifies this`standardChannels, this`extendedChannels
      ensures Valid() && Miners() <= old(Miners()) && found == IsOpen(old(View()), id)
      ensures View() == old(View()).(standard := old(View()).standard - {id},
                                     extended := if id in old(View()).standard then old(View()).extended
                                                 else old(View()).extended - {id})
    {
      hide Views, ChannelMiner.View;
      found := true;
      if id in standardChannels {
        standardChannels := standardChannels - {id};
      } else if id in extendedChannels {
        extendedChannels := extendedChannels - {id};
      } else {
        found := false;
      }
      ViewsUntouched(old(standardChannels));
      ViewsUntouched(old(extendedChannels));
      ViewsRemove(old(standardChannels), id);
      ViewsRemove(old(extendedChannels), id);
    }

    /** `for group in group_channels.values_mut()`, removing the listed channels from each. */
    method RemoveFromGroups(ids: seq<Id>)
      modifies this`groupChannels
      ensures groupChannels == RemoveFromAll(old(groupChannels), Elements(ids))
    {
      var rest := groupChannels.Keys;
      while rest != {}
        invariant rest <= groupChannels.Keys == old(groupChannels).Keys
        invariant forall g :: g in rest ==> groupChannels[g] == old(groupChannels)[g]
        invariant forall g :: g in groupChannels && g !in rest ==>
                    groupChannels[g] == WithoutMembers(old(groupChannels)[g], Elements(ids))
      {
        var g :| g in rest;
        var group := groupChannels[g];
        for i := 0 to |ids|
          invariant group == WithoutMembers(groupChannels[g], Elements(ids[..i]))
        {
          assert Elements(ids[..i + 1]) == Elements(ids[..i]) + {ids[i]};
          group := WithoutMembers(group, {ids[i]});
        }
        assert ids[..|ids|] == ids;
        groupChannels := groupChannels[g := group];
        rest := rest - {g};
      }
    }

    method HandleCloseChannel(id: Id)
      requires Valid()
      modifies this
      ensures Valid() && Miners() <= old(Miners())
      ensures View() == Close(old(View()), id)
    {
      var ids := AddressedChannels(id);
      ghost var s := View();
      NoneClosedYet(s);
      hide View, ClosedSoFar, IsOpen, Addressed;
      for i := 0 to |ids|
        invariant Valid() && Miners() <= old(Miners())
        invariant View() == ClosedSoFar(s, Elements(ids[..i]))
      {
        assert Elements(ids[..i + 1]) == Elements(ids[..i]) + {ids[i]};
        CloseOneMore(s, Elements(ids[..i]), ids[i]);
        CloseOne(ids[i]);
      }
      assert ids[..|ids|] == ids;
      DropEmptyGroups();
      AllClosed(s, id);
    }

    /** One turn of the loop: an open channel is removed and leaves every group. */
    method CloseOne(id: Id)
      requires Valid()
      modifies this
      ensures Valid() && Miners() <= old(Miners())
      ensures View() == CloseChannelIn(old(View()), id)
    {
      var found := RemoveChannel(id);
      if found {
        LeaveGroups([id]);
        assert Elements([id]) == {id};
      }
    }

    /** Changing the groups leaves every channel as it is. */
    method LeaveGroups(ids: seq<Id>)
      modifies this`groupChannels
      ensures View() == old(View()).(groups := RemoveFromAll(old(View()).groups, Elements(ids)))
    {
      RemoveFromGroups(ids);
      ViewsUntouched(standardChannels);
      ViewsUntouched(extendedChannels);
    }

    method DropEmptyGroups()
      modifies this`groupChannels
      ensures View() == old(View()).(groups := NonEmpty(old(View()).groups))
    {
      RetainNonEmpty();
      ViewsUntouched(standardChannels);
      ViewsUntouched(extendedChannels);
    }

    // ----- requests for channels -----

    method AskStandardMiner(lib: Library, id: Id, r: Request) returns (o: Outcome)
      requires Valid() && id in standardChannels
      modifies standardChannels[id]
      ensures (View(), o) == AskStandard(lib, old(View()), id, r)
    {
      hide Handle, ChannelMiner.View;
      var miner := standardChannels[id];
      var reply := miner.Answer(lib, r);
      o := Verdict(reply);
      assert Views(standardChannels) == old(Views(standardChannels))[id := miner.View()];
      ViewsUntouched(extendedChannels);
    }

    method AskExtendedMiner(lib: Library, id: Id, r: Request) returns (o: Outcome)
      requires Valid() && id in extendedChannels
      modifies extendedChannels[id]
      ensures (View(), o) == AskExtended(lib, old(View()), id, r)
    {
      hide Handle, ChannelMiner.View;
      var miner := extendedChannels[id];
      var reply := miner.Answer(lib, r);
      o := Verdict(reply);
      assert Views(extendedChannels) == old(Views(extendedChannels))[id := miner.View()];
      ViewsUntouched(standardChannels);
    }

    /** One visited channel of a fan-out. */
    method Deliver(lib: Library, id: Id, f: Fanned) returns (o: Outcome)
      requires Valid()
      modifies standardChannels.Values, extendedChannels.Values
      ensures (View(), o) == Routing.Deliver(lib, old(View()), id, f)
    {
      hide AskStandard, AskExtended;
      if id in standardChannels {
        o := AskStandardMiner(lib, id, RequestFor(f, true));
      } else if id in extendedChannels {
        o := AskExtendedMiner(lib, id, RequestFor(f, false));
      } else {
        o := Continue;
      }
    }

    /** Visits the channels in turn. */
    method FanOut(lib: Library, order: seq<Id>, f: Fanned) returns (o: Outcome)
      requires Valid()
      modifies standardChannels.Values, extendedChannels.Values
      ensures (View(), o) == Routing.FanOut(lib, old(View()), order, f)
    {
      hide View, Routing.Deliver;
      for i := 0 to |order|
        invariant Routing.FanOut(lib, View(), order[i..], f) == Routing.FanOut(lib, old(View()), order, f)
      {
        assert order[i..][0] == order[i] && order[i..][1..] == order[i + 1..];
        o := Deliver(lib, order[i], f);
        if o.Fatal? {
          return;
        }
      }
      o := Continue;
    }

    method HandleSetExtranoncePrefix(lib: Library, id: Id, prefix: Bytes) returns (o: Outcome)
      requires Valid()
      modifies standardChannels.Values, extendedChannels.Values
      ensures (View(), o) == SetPrefixOn(lib, old(View()), id, prefix)
    {
      hide Handle;
      if !lib.wirePrefix(prefix) {
        return Continue;
      }
      o := Continue;
      if id in standardChannels {
        o := AskStandardMiner(lib, id, Prefix(prefix));
        if o.Fatal? {
          return;
        }
      }
      if id in extendedChannels {
        o := AskExtendedMiner(lib, id, Prefix(prefix));
      }
    }

    /** A share verdict reaches the channel of that id; a poisoned lock is logged, not returned. */
    method AccountShares(lib: Library, id: Id, r: Request)
      requires Valid()
      modifies standardChannels.Values, extendedChannels.Values
      ensures View() == Account(lib, old(View()), id, r)
    {
      hide Handle;
      if id in standardChannels {
        var _ := AskStandardMiner(lib, id, r);
      } else if id in extendedChannels {
        var _ := AskExtendedMiner(lib, id, r);
      }
    }

    method HandleNewMiningJob(lib: Library, id: Id, job: JobMessage) returns (o: Outcome)
      requires Valid()
      modifies standardChannels.Values, extendedChannels.Values
      ensures (View(), o) == Routing.HandleMessage(cfg, lib, old(View()), NewMiningJob(id, job), [])
    {
      hide Handle;
      if id !in standardChannels {
        return Continue;
      }
      o := AskStandardMiner(lib, id, NewJob(job));
    }

    method HandleNewExtendedMiningJob(lib: Library, id: Id, job: JobMessage) returns (o: Outcome, ghost order: seq<Id>)
      requires Valid()
      modifies standardChannels.Values, extendedChannels.Values
      ensures Enumerates(order, Addressed(old(View()), id))
      ensures (View(), o) == Routing.HandleMessage(cfg, lib, old(View()), NewExtendedJob(id, job), order)
    {
      hide Handle, Routing.FanOut;
      var members := AddressedChannels(id);
      order := members;
      if cfg.requiresStandardJobs {
        return Fatal(StandardJobsOnly), order;
      }
      if id in groupChannels {
        o := FanOut(lib, members, FanJob(job));
      } else if id in extendedChannels {
        o := AskExtendedMiner(lib, id, ExtendedJob(job));
      } else {
        o := Continue;
      }
    }

    method HandleSetNewPrevHash(lib: Library, id: Id, p: PrevHashMessage) returns (o: Outcome, ghost order: seq<Id>)
      requires Valid()
      modifies standardChannels.Values, extendedChannels.Values
      ensures Enumerates(order, Addressed(old(View()), id))
      ensures (View(), o) == Routing.FanOut(lib, old(View()), order, FanPrevHash(p))
    {
      var ids := AddressedChannels(id);
      order := ids;
      o := FanOut(lib, ids, FanPrevHash(p));
    }

    method HandleSetTarget(lib: Library, id: Id, target: nat) returns (o: Outcome, ghost order: seq<Id>)
      requires Valid()
      modifies standardChannels.Values, extendedChannels.Values
      ensures Enumerates(order, Addressed(old(View()), id))
      ensures (View(), o) == Routing.FanOut(lib, old(View()), order, FanTarget(target))
    {
      var ids := AddressedChannels(id);
      order := ids;
      o := FanOut(lib, ids, FanTarget(target));
    }

    // ----- regrouping -----

    /** Vets the whole redefinition before any group is touched. */
    method VetListed(ids: seq<Id>) returns (v: Vetting)
      ensures v == Vet(View(), ids, EMPTY_GROUP)
    {
      var redefined := EMPTY_GROUP;
      hide View;
      for i := 0 to |ids|
        invariant Vet(View(), ids[i..], redefined) == Vet(View(), ids, EMPTY_GROUP)
      {
        assert ids[i..][0] == ids[i] && ids[i..][1..] == ids[i + 1..];
        var size := FullExtranonceSize(ids[i]);
        match size {
          case SizePoisoned => return Stuck;
          case Unknown => return Ignored;
          case Size(n) =>
            match AddMember(redefined, ids[i], n) {
              case None => return Ignored;
              case Some(g) => redefined := g;
            }
        }
      }
      v := Fits(redefined);
    }

    method HandleSetGroupChannel(group: Id, ids: seq<Id>) returns (o: Outcome)
      modifies this`groupChannels
      ensures (View(), o) == Regroup(cfg, old(View()), group, ids)
    {
      if cfg.requiresStandardJobs {
        return Fatal(StandardJobsOnly);
      }
      if group in standardChannels || group in extendedChannels {
        return Continue;
      }
      var vetted := VetListed(ids);
      match vetted {
        case Stuck => return Fatal(PoisonLock);
        case Ignored => return Continue;
        case Fits(redefined) =>
          RemoveFromGroups(ids);
          groupChannels := groupChannels - {group};
          if ids != [] {
            groupChannels := groupChannels[group := redefined];
          }
          RetainNonEmpty();
          ViewsUntouched(standardChannels);
          ViewsUntouched(extendedChannels);
          return Continue;
      }
    }

    // ----- every message -----

    /** One message from the server: the manager follows the routing specification, visiting the
        addressed channels in some order. */
    method HandleMessage(lib: Library, msg: Message) returns (o: Outcome, ghost order: seq<Id>)
      requires Valid()
      modifies this, standardChannels.Values, extendedChannels.Values
      ensures Valid() && fresh(Miners() - old(Miners()))
      ensures Enumerates(order, Visits(old(View()), msg))
      ensures (View(), o) == Routing.HandleMessage(cfg, lib, old(View()), msg, order)
    {
      hide Open, Close, Routing.FanOut, SetPrefixOn, Account, Regroup, AskStandard, AskExtended, View;
      o, order := Continue, [];
      match msg {
        case OpenStandard(id, g, p, t) => HandleOpenStandard(lib, id, g, p, t);
        case OpenExtended(id, g, p, t, r) => HandleOpenExtended(lib, id, g, p, t, r);
        case OpenError =>
        case UpdateError(_) =>
        case CloseChannel(id) => HandleCloseChannel(id);
        case SetPrefix(id, p) => o := HandleSetExtranoncePrefix(lib, id, p);
        case SharesSuccess(id, n, w) => AccountShares(lib, id, Acknowledge(n, w));
        case SharesError(id, code) => AccountShares(lib, id, Reject(code));
        case NewMiningJob(id, j) => o := HandleNewMiningJob(lib, id, j);
        case NewExtendedJob(id, j) => o, order := HandleNewExtendedMiningJob(lib, id, j);
        case SetNewPrevHash(id, p) => o, order := HandleSetNewPrevHash(lib, id, p);
        case SetTarget(id, t) => o, order := HandleSetTarget(lib, id, t);
        case SetGroup(g, ids) => o := HandleSetGroupChannel(g, ids);
        case CustomJobReply => o := Fatal(UnexpectedMessage);
      }
    }

    method StepStandardMiner(lib: Library, id: Id, l: Label)
      requires Valid() && id in standardChannels && BackgroundLabel(l)
      modifies standardChannels[id]
      ensures View() == old(View()).(standard := old(View()).standard[id := Step(lib, old(View()).standard[id], l)])
    {
      hide Step, ChannelMiner.View;
      var miner := standardChannels[id];
      miner.TakeStep(lib, l);
      assert Views(standardChannels) == old(Views(standardChannels))[id := miner.View()];
      ViewsUntouched(extendedChannels);
    }

    method StepExtendedMiner(lib: Library, id: Id, l: Label)
      requires Valid() && id in extendedChannels && BackgroundLabel(l)
      modifies extendedChannels[id]
      ensures View() == old(View()).(extended := old(View()).extended[id := Step(lib, old(View()).extended[id], l)])
    {
      hide Step, ChannelMiner.View;
      var miner := extendedChannels[id];
      miner.TakeStep(lib, l);
      assert Views(extendedChannels) == old(Views(extendedChannels))[id := miner.View()];
      ViewsUntouched(standardChannels);
    }

    /** A step of some channel's tasks, between two messages. */
    method LetStep(lib: Library, id: Id, standard: bool, l: Label)
      requires Valid()
      modifies standardChannels.Values, extendedChannels.Values
      ensures View() == Advance(lib, old(View()), id, standard, l)
    {
      hide Step, ChannelMiner.View;
      if !BackgroundLabel(l) {
        return;
      }
      if standard && id in standardChannels {
        StepStandardMiner(lib, id, l);
      } else if !standard && id in extendedChannels {
        StepExtendedMiner(lib, id, l);
      }
    }

    /** The connection's loop, and the tasks scheduled between its turns: messages are handled one
        after another until a handler returns an error, with task steps anywhere in between. The
        manager goes through a run of the routing specification, which handles every turn without
        error, or all but the last; so its groups keep their integrity. */
    method Serve(lib: Library, turns: seq<Turn>) returns (o: Outcome, ghost es: seq<Event>)
      requires Valid()
      modifies this, standardChannels.Values, extendedChannels.Values
      ensures Valid()
      ensures |es| <= |turns| && forall i :: 0 <= i < |es| ==> Follows(es[i], turns[i])
      ensures o.Continue? ==> |es| == |turns| && Reaches(cfg, lib, old(View()), es, View())
      ensures o.Fatal? ==> FailsAtTheLast(cfg, lib, old(View()), es, View(), o)
      ensures ValidRun(cfg, lib, old(View()), es) && View() == RunEvents(cfg, lib, old(View()), es)
      ensures GroupIndex.IndexInv(old(View())) ==> GroupIndex.IndexInv(View())
    {
      ghost var s0 := View();
      es := [];
      hide View, Routing.HandleMessage, Advance;
      for i := 0 to |turns|
        invariant Valid() && fresh(Miners() - old(Miners()))
        invariant |es| == i && forall j :: 0 <= j < i ==> Follows(es[j], turns[j])
        invariant Reaches(cfg, lib, s0, es, View())
      {
        ghost var s := View();
        ghost var e;
        o, e := ServeTurn(lib, turns[i]);
        RunExtends(cfg, lib, s0, es, s, e);
        ghost var before := es;
        es := es + [e];
        if o.Fatal? {
          assert Leads(cfg, lib, s0, before, s, e, View(), o);
          GroupIndexKept(cfg, lib, s0, es);
          return;
        }
      }
      o := Continue;
      ReachesIsARun(cfg, lib, s0, es, View());
      GroupIndexKept(cfg, lib, s0, es);
    }

    method ServeTurn(lib: Library, turn: Turn) returns (o: Outcome, ghost e: Event)
      requires Valid()
      modifies this, standardChannels.Values, extendedChannels.Values
      ensures Valid() && fresh(Miners() - old(Miners()))
      ensures Follows(e, turn) && ValidEvent(old(View()), e)
      ensures (View(), o) == Next(cfg, lib, old(View()), e)
    {
      hide View, Routing.HandleMessage, Advance;
      match turn {
        case Arrival(msg) =>
          ghost var order;
          o, order := HandleMessage(lib, msg);
          e := Receive(msg, order);
        case Elsewhere(id, standard, l) =>
          LetStep(lib, id, standard, l);
          o, e := Continue, Background(id, standard, l);
      }
    }
  }

  /** What the connection's task sees next: a message, or that some other task has run. */
  datatype Turn = Arrival(msg: Message) | Elsewhere(id: Id, standard: bool, step: Label)

  ghost predicate Follows(e: Event, turn: Turn) {
    match turn
    case Arrival(msg) => e.Receive? && e.msg == msg
    case Elsewhere(id, standard, l) => e == Background(id, standard, l)
  }

  /** All events but the last were handled without error, and the last one gave this error. */
  ghost predicate FailsAtTheLast(cfg: Config, lib: Library, s0: Manager, es: seq<Event>, s': Manager, o: Outcome) {
    exists before, s, e :: es == before + [e] && Leads(cfg, lib, s0, before, s, e, s', o)
  }

  /** The events lead to s without error, and one more event gives this state and outcome. */
  ghost predicate Leads(
    cfg: Config, lib: Library, s0: Manager, es: seq<Event>, s: Manager, e: Event, s': Manager, o: Outcome)
  {
    Reaches(cfg, lib, s0, es, s) && ValidEvent(s, e) && Next(cfg, lib, s, e) == (s', o)
  }

  lemma GroupIndexKept(cfg: Config, lib: Library, s: Manager, es: seq<Event>)
    ensures GroupIndex.IndexInv(s) ==> GroupIndex.IndexInv(RunEvents(cfg, lib, s, es))
  {
    if GroupIndex.IndexInv(s) { GroupIndex.EveryRunKeepsIndex(cfg, lib, s, es); }
  }

  function CloseChannelIn(s: Manager, id: Id): Manager {
    if IsOpen(s, id)
    then Manager(s.standard - {id}, if id in s.standard then s.extended else s.extended - {id},
                 RemoveFromAll(s.groups, {id}))
    else s
  }

  /** The state of a CloseChannel loop after it visited these channels. */
  ghost function ClosedSoFar(s: Manager, visited: set<Id>): Manager {
    var hit := visited * OpenIds(s);
    Manager(s.standard - hit, s.extended - (hit - s.standard.Keys), RemoveFromAll(s.groups, hit))
  }

  lemma NoneClosedYet(s: Manager)
    ensures ClosedSoFar(s, Elements([])) == s
  {
    assert Elements([]) * OpenIds(s) == {};
    RemoveNone(s.groups);
  }

  lemma AllClosed(s: Manager, id: Id)
    ensures var c := ClosedSoFar(s, Addressed(s, id)); c.(groups := NonEmpty(c.groups)) == Close(s, id)
  {
  }

  lemma CloseOneMore(s: Manager, visited: set<Id>, id: Id)
    requires id !in visited
    ensures ClosedSoFar(s, visited + {id}) == CloseChannelIn(ClosedSoFar(s, visited), id)
  {
    var hit := visited * OpenIds(s);
    var hit' := (visited + {id}) * OpenIds(s);
    var c := ClosedSoFar(s, visited);
    assert IsOpen(c, id) == IsOpen(s, id) && (id in c.standard <==> id in s.standard);
    if IsOpen(s, id) {
      assert hit' == hit + {id};
      assert s.standard - hit' == (s.standard - hit) - {id};
      assert s.extended - (hit' - s.standard.Keys) == if id in s.standard then c.extended else c.extended - {id};
      RemoveTwice(s.groups, hit, {id});
    } else {
      assert hit' == hit;
    }
  }
}
