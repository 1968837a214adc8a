// What each mining message does to the channels and groups of one connection.
//
// A message id names either a group, and then reaches every member, or one channel. Members are
// visited in no particular order, so a message comes with the `order` in which they are visited;
// the order matters only when a poisoned lock ends the run midway.
module Routing {
  import opened Wrappers
  import opened ClientChannels
  import opened MiningTasks

  /** The members of a group and the full extranonce size they share (unset while it has none):
      what this model assumes of the crate's group type. */
  datatype Group = Group(members: set<Id>, size: Option<nat>)

  const EMPTY_GROUP := Group({}, None)

  /** Adding a member fails only when its size is not the group's. */
  function AddMember(g: Group, id: Id, size: nat): Option<Group> {
    if g.size == None || g.size == Some(size) then Some(Group(g.members + {id}, Some(size))) else None
  }

  function WithoutMembers(g: Group, ids: set<Id>): Group {
    g.(members := g.members - ids)
  }

  datatype Config = Config(requiresStandardJobs: bool, singleSubmit: bool)

  datatype Manager = Manager(standard: map<Id, Miner>, extended: map<Id, Miner>, groups: map<Id, Group>)

  const NO_CHANNELS := Manager(map[], map[], map[])

  datatype Message =
    | OpenStandard(id: Id, group: Id, prefix: Bytes, target: nat)
    | OpenExtended(id: Id, group: Id, prefix: Bytes, target: nat, rollable: nat)
    | OpenError
    | UpdateError(id: Id)
    | CloseChannel(id: Id)
    | SetPrefix(id: Id, prefix: Bytes)
    | SharesSuccess(id: Id, count: nat, work: nat)
    | SharesError(id: Id, code: string)
    | NewMiningJob(id: Id, job: JobMessage)
    | NewExtendedJob(id: Id, job: JobMessage)
    | SetNewPrevHash(id: Id, prevHash: PrevHashMessage)
    | SetTarget(id: Id, target: nat)
    | SetGroup(group: Id, ids: seq<Id>)
    | CustomJobReply

  datatype Error = PoisonLock | StandardJobsOnly | UnexpectedMessage

  /** Continue, or the error that ends the run. */
  datatype Outcome = Continue | Fatal(error: Error)

  predicate IsOpen(s: Manager, id: Id) {
    id in s.standard || id in s.extended
  }

  function OpenIds(s: Manager): set<Id> {
    s.standard.Keys + s.extended.Keys
  }

  /** The channels an id addresses: a group's members, or the channel of that id. */
  function Addressed(s: Manager, id: Id): set<Id> {
    if id in s.groups then s.groups[id].members else {id}
  }

  function NonEmpty(groups: map<Id, Group>): map<Id, Group> {
    map g | g in groups && groups[g].members != {} :: groups[g]
  }

  function RemoveFromAll(groups: map<Id, Group>, ids: set<Id>): map<Id, Group> {
    map g | g in groups :: WithoutMembers(groups[g], ids)
  }

  lemma RemoveNone(groups: map<Id, Group>)
    ensures RemoveFromAll(groups, {}) == groups
  {
    assert forall g :: g in groups ==> groups[g].members - {} == groups[g].members;
  }

  lemma RemoveTwice(groups: map<Id, Group>, a: set<Id>, b: set<Id>)
    ensures RemoveFromAll(RemoveFromAll(groups, a), b) == RemoveFromAll(groups, a + b)
  {
    assert forall g :: g in groups ==> groups[g].members - a - b == groups[g].members - (a + b);
  }

  // ----- opening and closing -----

  /** Whether the ids of an Open...Success collide with ids already in use. */
  predicate IdsCollide(s: Manager, id: Id, group: Id) {
    IsOpen(s, group) || id == group || id in s.groups
  }

  function GroupToJoin(s: Manager, group: Id): Group {
    if group in s.groups then s.groups[group] else EMPTY_GROUP
  }

  /** The manager after the channel joined, or tried to join, its group; and whether it did. */
  function JoinGroup(s: Manager, id: Id, group: Id, size: nat): (Manager, bool) {
    if IdsCollide(s, id, group) then (s, false) else
    match AddMember(GroupToJoin(s, group), id, size)
    case Some(joined) => (s.(groups := s.groups[group := joined]), true)
    case None => (s.(groups := NonEmpty(s.groups)), false)
  }

  function JoinSize(kind: Kind, prefix: Bytes): nat {
    match kind
    case Standard => |prefix|
    case Extended(rollable) => |prefix| + rollable
  }

  function Open(
    cfg: Config, lib: Library, s: Manager, id: Id, group: Id, kind: Kind, prefix: Bytes, target: nat): Manager {
    var c := NewChannel(id, kind, prefix, target);
    if !lib.wirePrefix(prefix) || !lib.opens(c) then s else
    var (joined, ok) := JoinGroup(s, id, group, JoinSize(kind, prefix));
    if !ok then joined
    else if kind.Standard? then joined.(standard := joined.standard[id := NewMiner(c, cfg.singleSubmit)])
    else joined.(extended := joined.extended[id := NewMiner(c, cfg.singleSubmit)])
  }

  /** Every addressed channel that is open closes and leaves every group; emptied groups go. */
  function Close(s: Manager, id: Id): Manager {
    var hit := Addressed(s, id) * OpenIds(s);
    Manager(s.standard - hit, s.extended - (hit - s.standard.Keys), NonEmpty(RemoveFromAll(s.groups, hit)))
  }

  // ----- requests for channels -----

  datatype Fanned = FanPrevHash(prevHash: PrevHashMessage) | FanTarget(target: nat) | FanJob(job: JobMessage)

  /** A standard member derives its own job from a group's extended job. */
  function RequestFor(f: Fanned, standard: bool): Request {
    match f
    case FanPrevHash(p) => PrevHash(p)
    case FanTarget(t) => Target(t)
    case FanJob(j) => if standard then GroupJob(j) else ExtendedJob(j)
  }

  function Verdict(r: Reply): Outcome {
    if r.Poisoned? then Fatal(PoisonLock) else Continue
  }

  function AskStandard(lib: Library, s: Manager, id: Id, r: Request): (Manager, Outcome)
    requires id in s.standard
  {
    var (m, reply) := Handle(lib, s.standard[id], r);
    (s.(standard := s.standard[id := m]), Verdict(reply))
  }

  function AskExtended(lib: Library, s: Manager, id: Id, r: Request): (Manager, Outcome)
    requires id in s.extended
  {
    var (m, reply) := Handle(lib, s.extended[id], r);
    (s.(extended := s.extended[id := m]), Verdict(reply))
  }

  /** One visited channel; an unknown id is skipped. */
  function Deliver(lib: Library, s: Manager, id: Id, f: Fanned): (Manager, Outcome) {
    if id in s.standard then AskStandard(lib, s, id, RequestFor(f, true))
    else if id in s.extended then AskExtended(lib, s, id, RequestFor(f, false))
    else (s, Continue)
  }

  /** Channels visited one after another; a refusal concerns one channel, a poisoned lock ends it. */
  function FanOut(lib: Library, s: Manager, order: seq<Id>, f: Fanned): (Manager, Outcome)
    decreases |order|
  {
    if order == [] then (s, Continue) else
    var (s', o) := Deliver(lib, s, order[0], f);
    if o.Fatal? then (s', o) else FanOut(lib, s', order[1..], f)
  }

  function SetPrefixOn(lib: Library, s: Manager, id: Id, prefix: Bytes): (Manager, Outcome) {
    if !lib.wirePrefix(prefix) then (s, Continue) else
    var (s1, o1) := if id in s.standard then AskStandard(lib, s, id, Prefix(prefix)) else (s, Continue);
    if o1.Fatal? || id !in s.extended then (s1, o1) else AskExtended(lib, s1, id, Prefix(prefix))
  }

  /** Share verdicts reach one channel, and a poisoned lock is only logged. */
  function Account(lib: Library, s: Manager, id: Id, r: Request): Manager {
    if id in s.standard then AskStandard(lib, s, id, r).0
    else if id in s.extended then AskExtended(lib, s, id, r).0
    else s
  }

  // ----- regrouping -----

  datatype SizeReply = Size(size: nat) | Unknown | SizePoisoned

  function SizeOfMiner(m: Miner): SizeReply {
    if m.poisoned then SizePoisoned else Size(FullExtranonceSize(m.channel))
  }

  function SizeOf(s: Manager, id: Id): SizeReply {
    if id in s.standard then SizeOfMiner(s.standard[id])
    else if id in s.extended then SizeOfMiner(s.extended[id])
    else Unknown
  }

  datatype Vetting = Fits(group: Group) | Ignored | Stuck

  /** The listed ids are vetted in order, before any group is touched. */
  function Vet(s: Manager, ids: seq<Id>, acc: Group): Vetting
    decreases |ids|
  {
    if ids == [] then Fits(acc) else
    match SizeOf(s, ids[0])
    case SizePoisoned => Stuck
    case Unknown => Ignored
    case Size(size) =>
      match AddMember(acc, ids[0], size)
      case None => Ignored
      case Some(acc') => Vet(s, ids[1..], acc')
  }

  function Elements(ids: seq<Id>): set<Id> {
    set id | id in ids
  }

  /** The listed channels leave their groups and the target is redefined as exactly them. */
  function Redefine(s: Manager, group: Id, ids: seq<Id>, redefined: Group): Manager {
    var kept := RemoveFromAll(s.groups, Elements(ids)) - {group};
    s.(groups := NonEmpty(if ids == [] then kept else kept[group := redefined]))
  }

  function Regroup(cfg: Config, s: Manager, group: Id, ids: seq<Id>): (Manager, Outcome) {
    if cfg.requiresStandardJobs then (s, Fatal(StandardJobsOnly))
    else if IsOpen(s, group) then (s, Continue)
    else
      match Vet(s, ids, EMPTY_GROUP)
      case Stuck => (s, Fatal(PoisonLock))
      case Ignored => (s, Continue)
      case Fits(redefined) => (Redefine(s, group, ids, redefined), Continue)
  }

  // ----- every message -----

  function HandleMessage(cfg: Config, lib: Library, s: Manager, msg: Message, order: seq<Id>): (Manager, Outcome) {
    match msg
    case OpenStandard(id, g, p, t) => (Open(cfg, lib, s, id, g, Standard, p, t), Continue)
    case OpenExtended(id, g, p, t, r) => (Open(cfg, lib, s, id, g, Extended(r), p, t), Continue)
    case OpenError => (s, Continue)
    case UpdateError(_) => (s, Continue)
    case CloseChannel(id) => (Close(s, id), Continue)
    case SetPrefix(id, p) => SetPrefixOn(lib, s, id, p)
    case SharesSuccess(id, n, w) => (Account(lib, s, id, Acknowledge(n, w)), Continue)
    case SharesError(id, code) => (Account(lib, s, id, Reject(code)), Continue)
    case NewMiningJob(id, j) => if id in s.standard then AskStandard(lib, s, id, NewJob(j)) else (s, Continue)
    case NewExtendedJob(id, j) =>
      if cfg.requiresStandardJobs then (s, Fatal(StandardJobsOnly))
      else if id in s.groups then FanOut(lib, s, order, FanJob(j))
      else if id in s.extended then AskExtended(lib, s, id, ExtendedJob(j))
      else (s, Continue)
    case SetNewPrevHash(id, p) => FanOut(lib, s, order, FanPrevHash(p))
    case SetTarget(id, t) => FanOut(lib, s, order, FanTarget(t))
    case SetGroup(g, ids) => Regroup(cfg, s, g, ids)
    case CustomJobReply => (s, Fatal(UnexpectedMessage))
  }

  /** The channels a message visits one by one. */
  function Visits(s: Manager, msg: Message): set<Id> {
    match msg
    case NewExtendedJob(id, _) => Addressed(s, id)
    case SetNewPrevHash(id, _) => Addressed(s, id)
    case SetTarget(id, _) => Addressed(s, id)
    case _ => {}
  }

  /** A list that visits exactly these channels, each once. */
  ghost predicate Enumerates(order: seq<Id>, ids: set<Id>) {
    && (forall i, j :: 0 <= i < j < |order| ==> order[i] != order[j])
    && Elements(order) == ids
  }

  // ----- whole runs -----

  /** A message from the server, or a step of a task, the clock or a panic in one open channel. An id
      may be open as a standard and as an extended channel, so such a step says which of them it is in. */
  datatype Event = Receive(msg: Message, order: seq<Id>) | Background(id: Id, standard: bool, step: Label)

  /** A step of the miner of this id and kind; none if that channel is not open. */
  function StepIn(lib: Library, s: Manager, id: Id, standard: bool, l: Label): Manager {
    if standard && id in s.standard then s.(standard := s.standard[id := Step(lib, s.standard[id], l)])
    else if !standard && id in s.extended then s.(extended := s.extended[id := Step(lib, s.extended[id], l)])
    else s
  }

  function Advance(lib: Library, s: Manager, id: Id, standard: bool, l: Label): Manager {
    if BackgroundLabel(l) then StepIn(lib, s, id, standard, l) else s
  }

  function Next(cfg: Config, lib: Library, s: Manager, e: Event): (Manager, Outcome) {
    match e
    case Receive(msg, order) => HandleMessage(cfg, lib, s, msg, order)
    case Background(id, standard, l) => (Advance(lib, s, id, standard, l), Continue)
  }

  ghost predicate ValidEvent(s: Manager, e: Event) {
    e.Receive? ==> Enumerates(e.order, Visits(s, e.msg))
  }

  /** The first error a handler returns ends the run. */
  function RunEvents(cfg: Config, lib: Library, s: Manager, es: seq<Event>): Manager
    decreases |es|
  {
    if es == [] then s else
    var (s', o) := Next(cfg, lib, s, es[0]);
    if o.Fatal? then s' else RunEvents(cfg, lib, s', es[1..])
  }

  lemma RunOfThree(cfg: Config, lib: Library, s: Manager, e0: Event, e1: Event, e2: Event)
    requires Next(cfg, lib, s, e0).1.Continue? && Next(cfg, lib, Next(cfg, lib, s, e0).0, e1).1.Continue?
    ensures var s2 := Next(cfg, lib, Next(cfg, lib, s, e0).0, e1).0;
            && RunEvents(cfg, lib, s, [e0, e1]) == s2
            && RunEvents(cfg, lib, s, [e0, e1, e2]) == Next(cfg, lib, s2, e2).0
  {
    hide Next;
    var s1 := Next(cfg, lib, s, e0).0;
    var s2 := Next(cfg, lib, s1, e1).0;
    var s3 := Next(cfg, lib, s2, e2).0;
    var es := [e0, e1, e2];
    assert es[1..] == [e1, e2] && es[1..][1..] == [e2] && es[1..][1..][1..] == [];
    assert RunEvents(cfg, lib, s3, []) == s3 && RunEvents(cfg, lib, s2, []) == s2;
    assert RunEvents(cfg, lib, s2, [e2]) == s3 && RunEvents(cfg, lib, s1, [e1, e2]) == s3;
    assert [e0, e1][1..] == [e1] && [e1][1..] == [];
    assert RunEvents(cfg, lib, s1, [e1]) == s2;
  }

  ghost predicate ValidRun(cfg: Config, lib: Library, s: Manager, es: seq<Event>)
    decreases |es|
  {
    es == [] ||
    (ValidEvent(s, es[0]) &&
     var (s', o) := Next(cfg, lib, s, es[0]);
     o.Fatal? || ValidRun(cfg, lib, s', es[1..]))
  }

  /** This run of events, all handled without error, leads from s to s'. */
  ghost predicate Reaches(cfg: Config, lib: Library, s: Manager, es: seq<Event>, s': Manager)
    decreases |es|
  {
    if es == [] then s' == s else
    var (s1, o) := Next(cfg, lib, s, es[0]);
    ValidEvent(s, es[0]) && o.Continue? && Reaches(cfg, lib, s1, es[1..], s')
  }

  /** One more event, an error included, extends such a run. */
  lemma {:induction false} RunExtends(cfg: Config, lib: Library, s: Manager, es: seq<Event>, s': Manager, e: Event)
    requires Reaches(cfg, lib, s, es, s') && ValidEvent(s', e)
    ensures ValidRun(cfg, lib, s, es + [e]) && RunEvents(cfg, lib, s, es + [e]) == Next(cfg, lib, s', e).0
    ensures Next(cfg, lib, s', e).1.Continue? ==> Reaches(cfg, lib, s, es + [e], Next(cfg, lib, s', e).0)
    decreases |es|
  {
    var all := es + [e];
    hide Next, ValidEvent;
    if es == [] {
      assert all == [e] && all[1..] == [];
    } else {
      assert all[0] == es[0] && all[1..] == es[1..] + [e];
      RunExtends(cfg, lib, Next(cfg, lib, s, es[0]).0, es[1..], s', e);
    }
  }

  lemma {:induction false} ReachesIsARun(cfg: Config, lib: Library, s: Manager, es: seq<Event>, s': Manager)
    requires Reaches(cfg, lib, s, es, s')
    ensures ValidRun(cfg, lib, s, es) && RunEvents(cfg, lib, s, es) == s'
    decreases |es|
  {
    hide Next, ValidEvent;
    if es != [] { ReachesIsARun(cfg, lib, Next(cfg, lib, s, es[0]).0, es[1..], s'); }
  }
}
