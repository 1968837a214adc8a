// Which open channels are in no group, and what a connection that requires standard jobs keeps.
module Groupless {
  import opened Wrappers
  import opened ClientChannels
  import opened MiningTasks
  import opened Routing
  import opened GroupIndex
  import opened Membership
  import opened Projection
  import opened SampleRuns
  import EveryMiner

  /** The open channels in no group. */
  function Orphans(s: Manager, homes: map<Id, Id>): set<Id> {
    OpenIds(s) - homes.Keys
  }

  function OrphansAfter(cfg: Config, s: Manager, homes: map<Id, Id>, orphans: set<Id>, e: Event): set<Id> {
    if e.Receive? && e.msg.CloseChannel? then orphans - Addressed(s, e.msg.id)
    else if e.Receive? && e.msg.SetGroup? && RegroupAccepted(cfg, s, e.msg.group, e.msg.ids)
    then (orphans + Preimage(homes, e.msg.group)) - Elements(e.msg.ids)
    else orphans
  }

  /** A channel becomes groupless only when an accepted SetGroupChannel redefines its group without
      listing it, and stops being so when one lists it or when it closes. */
  lemma NextOrphans(cfg: Config, lib: Library, s: Manager, homes: map<Id, Id>, e: Event)
    requires IndexedBy(s, homes) && Fresh(s, e)
    ensures Orphans(Next(cfg, lib, s, e).0, HomesAfter(cfg, lib, s, homes, e))
            == OrphansAfter(cfg, s, homes, Orphans(s, homes), e)
  {
    hide IndexedBy, Open, OpenAccepted, Close, Regroup, RegroupAccepted;
    if !Reshapes(e) {
      OthersKeepShape(cfg, lib, s, e);
      hide Next;
    } else {
      match e.msg {
        case OpenStandard(id, g, p, t) => OpenOrphans(cfg, lib, s, homes, id, g, Standard, p, t);
        case OpenExtended(id, g, p, t, r) => OpenOrphans(cfg, lib, s, homes, id, g, Extended(r), p, t);
        case CloseChannel(id) =>
          AddressedIsPreimage(s, homes, id);
          CloseRefines(s, homes, id);
        case SetGroup(g, ids) => RegroupOrphans(cfg, lib, s, homes, g, ids, e.order);
      }
    }
  }

  lemma OpenOrphans(
    cfg: Config, lib: Library, s: Manager, homes: map<Id, Id>, id: Id, g: Id, kind: Kind, prefix: Bytes, target: nat)
    requires IndexedBy(s, homes) && !IsOpen(s, id)
    ensures Orphans(Open(cfg, lib, s, id, g, kind, prefix, target),
                    if OpenAccepted(lib, s, id, g, kind, prefix, target) then homes[id := g] else homes)
            == Orphans(s, homes)
  {
    OpenRefines(cfg, lib, s, homes, id, g, kind, prefix, target);
    hide Open, OpenAccepted, IndexedBy;
  }

  lemma RegroupOrphans(cfg: Config, lib: Library, s: Manager, homes: map<Id, Id>, g: Id, ids: seq<Id>, order: seq<Id>)
    requires IndexedBy(s, homes)
    ensures var e := Receive(SetGroup(g, ids), order);
            Orphans(Regroup(cfg, s, g, ids).0, HomesAfter(cfg, lib, s, homes, e))
            == OrphansAfter(cfg, s, homes, Orphans(s, homes), e)
  {
    hide IndexedBy, Regroup;
    HomesAreOpen(s, homes);
    RegroupRefines(cfg, lib, s, homes, g, ids, order);
    if RegroupAccepted(cfg, s, g, ids) {
      VetOnlyOpen(s, ids, EMPTY_GROUP);
      hide RegroupAccepted;
      var homes' := (homes - Preimage(homes, g)) + (map c | c in Elements(ids) :: g);
      assert homes'.Keys == (homes.Keys - Preimage(homes, g)) + Elements(ids);
      assert OpenIds(s) - homes'.Keys == (Orphans(s, homes) + Preimage(homes, g)) - Elements(ids);
    }
  }

  lemma HomesAreOpen(s: Manager, homes: map<Id, Id>)
    requires IndexedBy(s, homes)
    ensures homes.Keys <= OpenIds(s)
  {
    forall c | c in homes ensures c in OpenIds(s) {
      assert InGroup(s, homes[c], c);
    }
  }

  function OrphansAfterRun(
    cfg: Config, lib: Library, s: Manager, homes: map<Id, Id>, orphans: set<Id>, es: seq<Event>): set<Id>
    decreases |es|
  {
    if es == [] then orphans else
    var (s', o) := Next(cfg, lib, s, es[0]);
    var orphans' := OrphansAfter(cfg, s, homes, orphans, es[0]);
    if o.Fatal? then orphans'
    else OrphansAfterRun(cfg, lib, s', HomesAfter(cfg, lib, s, homes, es[0]), orphans', es[1..])
  }

  /** The groupless channels of a run with fresh ids are exactly those its regroupings left out. */
  lemma {:induction false} RunOrphans(cfg: Config, lib: Library, s: Manager, homes: map<Id, Id>, es: seq<Event>)
    requires IndexedBy(s, homes) && FreshRun(cfg, lib, s, es)
    ensures Orphans(RunEvents(cfg, lib, s, es), HomesAfterRun(cfg, lib, s, homes, es))
            == OrphansAfterRun(cfg, lib, s, homes, Orphans(s, homes), es)
    decreases |es|
  {
    if es != [] {
      NextOrphans(cfg, lib, s, homes, es[0]);
      NextRefines(cfg, lib, s, homes, es[0]);
      var (s', o) := Next(cfg, lib, s, es[0]);
      hide Next, IndexedBy, HomesAfter, OrphansAfter, Orphans;
      if !o.Fatal? { RunOrphans(cfg, lib, s', HomesAfter(cfg, lib, s, homes, es[0]), es[1..]); }
    }
  }

  /** The channels a regrouping takes out of its target group are all listed. */
  predicate ListsOldMembers(s: Manager, g: Id, ids: seq<Id>) {
    g in s.groups ==> s.groups[g].members <= Elements(ids)
  }

  ghost predicate LeavesNoneGroupless(s: Manager, s': Manager) {
    forall c :: IsOpen(s', c) && (forall g :: !InGroup(s', g, c)) ==> IsOpen(s, c) && forall g :: !InGroup(s, g, c)
  }

  lemma OrphansAreGroupless(s: Manager, homes: map<Id, Id>, c: Id)
    requires IndexedBy(s, homes)
    ensures c in Orphans(s, homes) <==> IsOpen(s, c) && forall g :: !InGroup(s, g, c)
  {
    if c in homes { assert InGroup(s, homes[c], c); }
    hide InGroup;
  }

  /** An event leaves no channel newly groupless exactly when it is no accepted SetGroupChannel or
      its list contains every old member of the target. */
  lemma GroupsKeptExactly(cfg: Config, lib: Library, s: Manager, homes: map<Id, Id>, e: Event)
    requires IndexedBy(s, homes) && Fresh(s, e)
    ensures LeavesNoneGroupless(s, Next(cfg, lib, s, e).0)
            <==> !(e.Receive? && e.msg.SetGroup? && RegroupAccepted(cfg, s, e.msg.group, e.msg.ids))
                 || ListsOldMembers(s, e.msg.group, e.msg.ids)
  {
    var s' := Next(cfg, lib, s, e).0;
    var homes' := HomesAfter(cfg, lib, s, homes, e);
    NextOrphans(cfg, lib, s, homes, e);
    NextRefines(cfg, lib, s, homes, e);
    forall c { OrphansAreGroupless(s, homes, c); }
    forall c { OrphansAreGroupless(s', homes', c); }
    hide Next, HomesAfter, IndexedBy, RegroupAccepted;
    assert LeavesNoneGroupless(s, s') <==> Orphans(s', homes') <= Orphans(s, homes) by { hide Orphans, InGroup; }
    if e.Receive? && e.msg.SetGroup? {
      var g := e.msg.group;
      AddressedIsPreimage(s, homes, g);
      assert g in s.groups ==> Preimage(homes, g) == s.groups[g].members;
      assert Preimage(homes, g) !! Orphans(s, homes);
      assert (Orphans(s, homes) + Preimage(homes, g)) - Elements(e.msg.ids) <= Orphans(s, homes)
             <==> Preimage(homes, g) <= Elements(e.msg.ids) by { hide Preimage, Orphans, Elements; }
    }
    hide InGroup, LeavesNoneGroupless;
  }

  const SAMPLE_REGROUP := Receive(SetGroup(1, [3]), [])

  /** Channel 3 alone is listed: channel 2 is left in no group. */
  lemma SampleRegroup(cfg: Config, lib: Library, s: Manager)
    requires !cfg.requiresStandardJobs && !IsOpen(s, 1) && IsOpen(s, 2) && SizeOf(s, 3) == Size(0)
    requires forall g :: InGroup(s, g, 2) ==> g == 1
    ensures SoundEvent(s, SAMPLE_REGROUP)
    ensures var s' := Next(cfg, lib, s, SAMPLE_REGROUP).0; IsOpen(s', 2) && forall g :: !InGroup(s', g, 2)
  {
    var ids := [3];
    assert Elements(ids) == {3} && Elements([]) == {};
    VetExactly(s, ids);
    assert AllOfSize(s, ids, 0);
    assert RegroupAccepted(cfg, s, 1, ids);
    RegroupIsAllOrNothing(cfg, s, 1, ids);
    hide Vet, Redefine, InGroup;
  }

  /** Reachable: two channels are opened in a group, which is then redefined with one of them. */
  lemma RegroupCanLeaveAChannelOut()
    ensures exists cfg: Config, lib: Library, es: seq<Event> ::
              SoundRun(cfg, lib, NO_CHANNELS, es) &&
              var s := RunEvents(cfg, lib, NO_CHANNELS, es);
              IsOpen(s, 2) && forall g :: !InGroup(s, g, 2)
  {
    hide SampleOpened, Next, InGroup, RunEvents, SoundRun, SoundEvent;
    TwoOpens();
    assert 1 !in OpenIds(TWO_OPEN) && 2 in OpenIds(TWO_OPEN);
    SampleRegroup(SAMPLE, Witnesses.AGREEABLE, TWO_OPEN);
    AfterTwoOpens(SAMPLE_REGROUP);
  }

  // ----- connections that require standard jobs -----

  /** The group an id was opened in, until it closes. */
  function NamedAfter(lib: Library, s: Manager, id: Id, e: Event, named: Option<Id>): Option<Id> {
    if e.Background? then named else
    match e.msg
    case OpenStandard(i, g, _, _) => if i == id && OpenMessageAccepted(lib, s, e.msg) then Some(g) else named
    case OpenExtended(i, g, _, _, _) => if i == id && OpenMessageAccepted(lib, s, e.msg) then Some(g) else named
    case CloseChannel(i) => if id in Addressed(s, i) then None else named
    case _ => named
  }

  function NamedAfterRun(cfg: Config, lib: Library, s: Manager, id: Id, es: seq<Event>, named: Option<Id>): Option<Id>
    decreases |es|
  {
    if es == [] then named else
    var (s', o) := Next(cfg, lib, s, es[0]);
    var named' := NamedAfter(lib, s, id, es[0], named);
    if o.Fatal? then named' else NamedAfterRun(cfg, lib, s', id, es[1..], named')
  }

  /** The id is open exactly if it has a named group, and is in that group and no other. */
  ghost predicate InNamedGroup(s: Manager, id: Id, named: Option<Id>) {
    && (IsOpen(s, id) <==> named.Some?)
    && (forall g: Id :: InGroup(s, g, id) <==> named == Some(g))
  }

  lemma NextKeepsNamedGroup(
    cfg: Config, lib: Library, s: Manager, homes: map<Id, Id>, id: Id, e: Event, named: Option<Id>)
    requires cfg.requiresStandardJobs && IndexedBy(s, homes) && Fresh(s, e) && InNamedGroup(s, id, named)
    ensures InNamedGroup(Next(cfg, lib, s, e).0, id, NamedAfter(lib, s, id, e, named))
  {
    var s' := Next(cfg, lib, s, e).0;
    if !Reshapes(e) {
      OthersKeepShape(cfg, lib, s, e);
      assert forall g :: InGroup(s', g, id) == InGroup(s, g, id);
      hide Next, IndexedBy;
    } else {
      match e.msg {
        case OpenStandard(i, g, p, t) => OpenKeepsNamedGroup(cfg, lib, s, homes, id, i, g, Standard, p, t, named);
        case OpenExtended(i, g, p, t, r) => OpenKeepsNamedGroup(cfg, lib, s, homes, id, i, g, Extended(r), p, t, named);
        case CloseChannel(i) =>
          forall g { ClosedMembership(s, i, g, id); }
          CloseRefines(s, homes, i);
        case SetGroup(_, _) =>
      }
      hide Open, Close, IndexedBy, InGroup;
    }
  }

  lemma OpenKeepsNamedGroup(cfg: Config, lib: Library, s: Manager, homes: map<Id, Id>, id: Id,
                            i: Id, g: Id, kind: Kind, prefix: Bytes, target: nat, named: Option<Id>)
    requires IndexedBy(s, homes) && !IsOpen(s, i) && InNamedGroup(s, id, named)
    ensures InNamedGroup(Open(cfg, lib, s, i, g, kind, prefix, target), id,
                         if i == id && OpenAccepted(lib, s, i, g, kind, prefix, target) then Some(g) else named)
  {
    OpenRefines(cfg, lib, s, homes, i, g, kind, prefix, target);
    if OpenAccepted(lib, s, i, g, kind, prefix, target) {
      forall h { OpenedMembership(cfg, lib, s, i, g, kind, prefix, target, h, id); }
      assert id in OpenIds(Open(cfg, lib, s, i, g, kind, prefix, target)) <==> id in OpenIds(s) || id == i;
    }
    hide Open, InGroup, IndexedBy, OpenAccepted;
  }

  /** On a connection that requires standard jobs every open channel is, until its close, in exactly
      the group named when it opened. */
  lemma {:induction false} StandardJobsKeepNamedGroups(
    cfg: Config, lib: Library, s: Manager, homes: map<Id, Id>, id: Id, es: seq<Event>, named: Option<Id>)
    requires cfg.requiresStandardJobs && IndexedBy(s, homes) && FreshRun(cfg, lib, s, es) && InNamedGroup(s, id, named)
    ensures InNamedGroup(RunEvents(cfg, lib, s, es), id, NamedAfterRun(cfg, lib, s, id, es, named))
    decreases |es|
  {
    if es != [] {
      NextKeepsNamedGroup(cfg, lib, s, homes, id, es[0], named);
      NextRefines(cfg, lib, s, homes, es[0]);
      var (s', o) := Next(cfg, lib, s, es[0]);
      hide Next, IndexedBy, HomesAfter, InNamedGroup, NamedAfter;
      if !o.Fatal? {
        StandardJobsKeepNamedGroups(cfg, lib, s', HomesAfter(cfg, lib, s, homes, es[0]), id, es[1..],
                                    NamedAfter(lib, s, id, es[0], named));
      }
    }
  }

  lemma StandardJobsFromNothing(cfg: Config, lib: Library, id: Id, es: seq<Event>)
    requires cfg.requiresStandardJobs && FreshRun(cfg, lib, NO_CHANNELS, es)
    ensures InNamedGroup(RunEvents(cfg, lib, NO_CHANNELS, es), id, NamedAfterRun(cfg, lib, NO_CHANNELS, id, es, None))
  {
    StandardJobsKeepNamedGroups(cfg, lib, NO_CHANNELS, map[], id, es, None);
  }

  /** No job the miner holds comes from an extended job message. */
  predicate StandardJobsOnly(m: Miner) {
    && (m.channel.active.Some? ==> !m.channel.active.value.job.fromExtended)
    && (forall j :: j in m.channel.future ==> !m.channel.future[j].fromExtended)
  }

  lemma HandleKeepsJobs(cfg: Config, lib: Library, m: Miner, r: Request)
    requires cfg.requiresStandardJobs && EveryMiner.Possible(cfg, r) && StandardJobsOnly(m)
    ensures StandardJobsOnly(Handle(lib, m, r).0)
  {
  }

  lemma StepKeepsJobs(lib: Library, m: Miner, l: Label)
    requires StandardJobsOnly(m) && BackgroundLabel(l)
    ensures StandardJobsOnly(Step(lib, m, l))
  {
    if l.Take? { ActFrame(lib, m, l.task, l.act); }
    hide ActStep;
  }

  /** On a connection that requires standard jobs no job derived from an extended job is ever held,
      whatever the server sends. */
  lemma NoExtendedJobIsHeld(cfg: Config, lib: Library, es: seq<Event>)
    requires cfg.requiresStandardJobs
    ensures EveryMiner.All(RunEvents(cfg, lib, NO_CHANNELS, es), StandardJobsOnly)
  {
    forall m, r | StandardJobsOnly(m) && EveryMiner.Possible(cfg, r) ensures StandardJobsOnly(Handle(lib, m, r).0) {
      HandleKeepsJobs(cfg, lib, m, r);
    }
    forall m, l | StandardJobsOnly(m) && BackgroundLabel(l) ensures StandardJobsOnly(Step(lib, m, l)) {
      StepKeepsJobs(lib, m, l);
    }
    hide Handle, Step, StandardJobsOnly;
    EveryMiner.RunKeepsAll(cfg, lib, NO_CHANNELS, es, StandardJobsOnly);
  }
}
