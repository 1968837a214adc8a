// The ids in use. From the empty manager, whatever the server sends and whatever ids it reuses,
// group ids and channel ids never overlap, no group is empty and every member is open. When no
// message opens an id that is open already, the groups are the inverse of a map from channel to
// group, which messages update point by point.
module GroupIndex {
  import opened ClientChannels
  import opened MiningTasks
  import opened Routing

  // ----- for every run -----

  ghost predicate IndexInv(s: Manager) {
    && s.groups.Keys !! OpenIds(s)
    && (forall g :: g in s.groups ==> s.groups[g].members != {} && s.groups[g].members <= OpenIds(s))
  }

  /** The same ids are open and in the same groups. */
  predicate SameShape(s: Manager, s': Manager) {
    s'.standard.Keys == s.standard.Keys && s'.extended.Keys == s.extended.Keys && s'.groups == s.groups
  }

  lemma {:induction false} FanOutKeepsShape(lib: Library, s: Manager, order: seq<Id>, f: Fanned)
    ensures SameShape(s, Routing.FanOut(lib, s, order, f).0)
    decreases |order|
  {
    hide Handle;
    if order != [] {
      var (s', o) := Deliver(lib, s, order[0], f);
      assert SameShape(s, s');
      if !o.Fatal? { FanOutKeepsShape(lib, s', order[1..], f); }
    }
  }

  predicate Opens(msg: Message) {
    msg.OpenStandard? || msg.OpenExtended?
  }

  predicate Reshapes(e: Event) {
    e.Receive? && (Opens(e.msg) || e.msg.CloseChannel? || e.msg.SetGroup?)
  }

  /** Only opening, closing and regrouping change which ids are open or grouped. */
  lemma OthersKeepShape(cfg: Config, lib: Library, s: Manager, e: Event)
    requires !Reshapes(e)
    ensures SameShape(s, Next(cfg, lib, s, e).0)
  {
    hide Handle, Routing.FanOut, Step;
    match e {
      case Receive(msg, order) =>
        match msg {
          case NewExtendedJob(_, j) => FanOutKeepsShape(lib, s, order, FanJob(j));
          case SetNewPrevHash(_, p) => FanOutKeepsShape(lib, s, order, FanPrevHash(p));
          case SetTarget(_, t) => FanOutKeepsShape(lib, s, order, FanTarget(t));
          case _ =>
        }
      case Background(_, _, _) =>
    }
  }

  lemma NonEmptyOfNonEmpty(groups: map<Id, Group>)
    requires forall g :: g in groups ==> groups[g].members != {}
    ensures NonEmpty(groups) == groups
  {
  }

  lemma OpenKeepsIndex(cfg: Config, lib: Library, s: Manager, id: Id, g: Id, kind: Kind, prefix: Bytes, target: nat)
    requires IndexInv(s)
    ensures IndexInv(Open(cfg, lib, s, id, g, kind, prefix, target))
  {
    NonEmptyOfNonEmpty(s.groups);
  }

  lemma CloseKeepsIndex(s: Manager, id: Id)
    requires IndexInv(s)
    ensures IndexInv(Close(s, id))
  {
    var hit := Addressed(s, id) * OpenIds(s);
    var s' := Close(s, id);
    assert OpenIds(s) - hit <= OpenIds(s') <= OpenIds(s);
  }

  lemma {:induction false} VetOnlyOpen(s: Manager, ids: seq<Id>, acc: Group)
    requires Vet(s, ids, acc).Fits?
    ensures Elements(ids) <= OpenIds(s)
    ensures Vet(s, ids, acc).group.members == acc.members + Elements(ids)
    decreases |ids|
  {
    if ids != [] {
      VetOnlyOpen(s, ids[1..], AddMember(acc, ids[0], SizeOf(s, ids[0]).size).value);
      assert Elements(ids) == {ids[0]} + Elements(ids[1..]);
    } else {
      assert Elements(ids) == {};
    }
  }

  lemma RegroupKeepsIndex(cfg: Config, s: Manager, g: Id, ids: seq<Id>)
    requires IndexInv(s)
    ensures IndexInv(Regroup(cfg, s, g, ids).0)
  {
    if Vet(s, ids, EMPTY_GROUP).Fits? {
      VetOnlyOpen(s, ids, EMPTY_GROUP);
    }
  }

  lemma NextKeepsIndex(cfg: Config, lib: Library, s: Manager, e: Event)
    requires IndexInv(s)
    ensures IndexInv(Next(cfg, lib, s, e).0)
  {
    if !Reshapes(e) {
      OthersKeepShape(cfg, lib, s, e);
      hide Next;
    } else {
      hide Open, Close, Regroup, IndexInv;
      match e.msg {
        case OpenStandard(id, g, p, t) => OpenKeepsIndex(cfg, lib, s, id, g, Standard, p, t);
        case OpenExtended(id, g, p, t, r) => OpenKeepsIndex(cfg, lib, s, id, g, Extended(r), p, t);
        case CloseChannel(id) => CloseKeepsIndex(s, id);
        case SetGroup(g, ids) => RegroupKeepsIndex(cfg, s, g, ids);
      }
    }
  }

  /** Namespace and membership integrity of every run, reused ids and poisoned locks included. */
  lemma {:induction false} EveryRunKeepsIndex(cfg: Config, lib: Library, s: Manager, es: seq<Event>)
    requires IndexInv(s)
    ensures IndexInv(RunEvents(cfg, lib, s, es))
    decreases |es|
  {
    if es != [] {
      NextKeepsIndex(cfg, lib, s, es[0]);
      var (s', o) := Next(cfg, lib, s, es[0]);
      if !o.Fatal? { EveryRunKeepsIndex(cfg, lib, s', es[1..]); }
    }
  }

  lemma EveryRunFromNothingKeepsIndex(cfg: Config, lib: Library, es: seq<Event>)
    ensures IndexInv(RunEvents(cfg, lib, NO_CHANNELS, es))
  {
    EveryRunKeepsIndex(cfg, lib, NO_CHANNELS, es);
  }

  // ----- for runs that open fresh ids -----

  predicate Fresh(s: Manager, e: Event) {
    e.Receive? && Opens(e.msg) ==> !IsOpen(s, e.msg.id)
  }

  ghost predicate FreshRun(cfg: Config, lib: Library, s: Manager, es: seq<Event>)
    decreases |es|
  {
    es == [] ||
    (Fresh(s, es[0]) && var (s', o) := Next(cfg, lib, s, es[0]); o.Fatal? || FreshRun(cfg, lib, s', es[1..]))
  }

  predicate InGroup(s: Manager, g: Id, c: Id) {
    g in s.groups && c in s.groups[g].members
  }

  /** The groups are the inverse of this map from channel to group. */
  ghost predicate Represents(s: Manager, homes: map<Id, Id>) {
    && (forall c :: c in homes ==> InGroup(s, homes[c], c))
    && (forall g, c :: InGroup(s, g, c) ==> c in homes && homes[c] == g)
  }

  ghost predicate OneKind(s: Manager) {
    s.standard.Keys !! s.extended.Keys
  }

  ghost predicate IndexedBy(s: Manager, homes: map<Id, Id>) {
    IndexInv(s) && OneKind(s) && Represents(s, homes)
  }

  /** The conditions under which an Open...Success opens its channel. */
  predicate OpenAccepted(lib: Library, s: Manager, id: Id, g: Id, kind: Kind, prefix: Bytes, target: nat) {
    && lib.wirePrefix(prefix) && lib.opens(NewChannel(id, kind, prefix, target))
    && !IdsCollide(s, id, g)
    && AddMember(GroupToJoin(s, g), id, JoinSize(kind, prefix)).Some?
  }

  predicate OpenMessageAccepted(lib: Library, s: Manager, msg: Message) {
    match msg
    case OpenStandard(id, g, p, t) => OpenAccepted(lib, s, id, g, Standard, p, t)
    case OpenExtended(id, g, p, t, r) => OpenAccepted(lib, s, id, g, Extended(r), p, t)
    case _ => false
  }

  predicate RegroupAccepted(cfg: Config, s: Manager, g: Id, ids: seq<Id>) {
    !cfg.requiresStandardJobs && !IsOpen(s, g) && Vet(s, ids, EMPTY_GROUP).Fits?
  }

  function Preimage(homes: map<Id, Id>, g: Id): set<Id> {
    set c | c in homes && homes[c] == g
  }

  /** What an event does to the map: a point update, a removal, or g's channels replaced. */
  function HomesAfter(cfg: Config, lib: Library, s: Manager, homes: map<Id, Id>, e: Event): map<Id, Id> {
    if e.Background? then homes else
    match e.msg
    case OpenStandard(id, g, _, _) => if OpenMessageAccepted(lib, s, e.msg) then homes[id := g] else homes
    case OpenExtended(id, g, _, _, _) => if OpenMessageAccepted(lib, s, e.msg) then homes[id := g] else homes
    case CloseChannel(id) => homes - (if Preimage(homes, id) != {} then Preimage(homes, id) else {id})
    case SetGroup(g, ids) =>
      if RegroupAccepted(cfg, s, g, ids)
      then (homes - Preimage(homes, g)) + (map c | c in Elements(ids) :: g)
      else homes
    case _ => homes
  }

  /** A message reaches exactly the channels the map sends to its id, or the channel of that id. */
  lemma AddressedIsPreimage(s: Manager, homes: map<Id, Id>, id: Id)
    requires IndexedBy(s, homes)
    ensures Addressed(s, id) == if Preimage(homes, id) != {} then Preimage(homes, id) else {id}
    ensures id in s.groups <==> Preimage(homes, id) != {}
  {
    if id in s.groups {
      forall c | c in s.groups[id].members ensures c in Preimage(homes, id) {
        assert InGroup(s, id, c);
      }
      assert Preimage(homes, id) == s.groups[id].members;
    } else {
      assert Preimage(homes, id) == {};
    }
  }

  lemma NonEmptyMembers(groups: map<Id, Group>, g: Id, c: Id)
    ensures (g in NonEmpty(groups) && c in NonEmpty(groups)[g].members) <==> (g in groups && c in groups[g].members)
  {
  }

  /** After an accepted regrouping a listed channel is in the target group only, an old member that
      is not listed is in no group, and every other membership is as before. */
  lemma RedefinedMembership(s: Manager, g: Id, ids: seq<Id>, redefined: Group, h: Id, c: Id)
    requires redefined.members == Elements(ids)
    ensures InGroup(Redefine(s, g, ids, redefined), h, c)
            <==> if c in Elements(ids) then h == g else h != g && InGroup(s, h, c)
  {
    var kept := RemoveFromAll(s.groups, Elements(ids)) - {g};
    var groups := if ids == [] then kept else kept[g := redefined];
    NonEmptyMembers(groups, h, c);
    hide NonEmpty;
    if ids != [] { assert ids[0] in Elements(ids); }
  }

  /** An accepted open adds one membership. */
  lemma OpenedMembership(
    cfg: Config, lib: Library, s: Manager, id: Id, g: Id, kind: Kind, prefix: Bytes, target: nat, h: Id, c: Id)
    requires OpenAccepted(lib, s, id, g, kind, prefix, target)
    ensures InGroup(Open(cfg, lib, s, id, g, kind, prefix, target), h, c) <==> (h == g && c == id) || InGroup(s, h, c)
  {
  }

  lemma OpenChanges(cfg: Config, lib: Library, s: Manager, id: Id, g: Id, kind: Kind, prefix: Bytes, target: nat)
    requires IndexInv(s) && OneKind(s) && !IsOpen(s, id)
    ensures var s' := Open(cfg, lib, s, id, g, kind, prefix, target);
            if OpenAccepted(lib, s, id, g, kind, prefix, target)
            then OneKind(s') && OpenIds(s') == OpenIds(s) + {id}
            else s' == s
  {
    NonEmptyOfNonEmpty(s.groups);
    hide NewMiner;
  }

  lemma OpenRefines(
    cfg: Config, lib: Library, s: Manager, homes: map<Id, Id>, id: Id, g: Id, kind: Kind, prefix: Bytes, target: nat)
    requires IndexedBy(s, homes) && !IsOpen(s, id)
    ensures var s' := Open(cfg, lib, s, id, g, kind, prefix, target);
            if OpenAccepted(lib, s, id, g, kind, prefix, target)
            then IndexedBy(s', homes[id := g]) && OpenIds(s') == OpenIds(s) + {id}
            else s' == s
  {
    OpenKeepsIndex(cfg, lib, s, id, g, kind, prefix, target);
    OpenChanges(cfg, lib, s, id, g, kind, prefix, target);
    if OpenAccepted(lib, s, id, g, kind, prefix, target) {
      var s' := Open(cfg, lib, s, id, g, kind, prefix, target);
      var homes' := homes[id := g];
      assert id !in homes by {
        assert id in homes ==> InGroup(s, homes[id], id);
      }
      hide Open, IndexInv, InGroup, OpenAccepted;
      forall c | c in homes' ensures InGroup(s', homes'[c], c) {
        OpenedMembership(cfg, lib, s, id, g, kind, prefix, target, homes'[c], c);
      }
      forall h, c | InGroup(s', h, c) ensures c in homes' && homes'[c] == h {
        OpenedMembership(cfg, lib, s, id, g, kind, prefix, target, h, c);
      }
    }
  }

  /** An open of an id that is open as the other kind. */
  predicate OpensOtherKind(s: Manager, msg: Message) {
    match msg
    case OpenStandard(id, _, _, _) => id in s.extended
    case OpenExtended(id, _, _, _, _) => id in s.standard
    case _ => false
  }

  /** No id names two channels after an event exactly if the event is no accepted open of an id that is
      open as the other kind. */
  lemma OneKindKeptExactly(cfg: Config, lib: Library, s: Manager, e: Event)
    requires IndexInv(s) && OneKind(s)
    ensures OneKind(Next(cfg, lib, s, e).0)
            <==> !(e.Receive? && OpenMessageAccepted(lib, s, e.msg) && OpensOtherKind(s, e.msg))
  {
    if !Reshapes(e) {
      OthersKeepShape(cfg, lib, s, e);
      hide Next;
    } else {
      hide IndexInv;
      match e.msg {
        case OpenStandard(id, g, p, t) => OpenKinds(cfg, lib, s, id, g, Standard, p, t);
        case OpenExtended(id, g, p, t, r) => OpenKinds(cfg, lib, s, id, g, Extended(r), p, t);
        case _ =>
      }
      hide Open, OpenAccepted, Vet;
    }
  }

  lemma OpenKinds(
    cfg: Config, lib: Library, s: Manager, id: Id, g: Id, kind: Kind, prefix: Bytes, target: nat)
    ensures var s' := Open(cfg, lib, s, id, g, kind, prefix, target);
            var accepted := OpenAccepted(lib, s, id, g, kind, prefix, target);
            && s'.standard.Keys == s.standard.Keys + (if accepted && kind.Standard? then {id} else {})
            && s'.extended.Keys == s.extended.Keys + (if accepted && !kind.Standard? then {id} else {})
  {
    hide NewMiner;
  }

  lemma NextKeepsOneKind(cfg: Config, lib: Library, s: Manager, e: Event)
    requires IndexInv(s) && OneKind(s) && Fresh(s, e)
    ensures OneKind(Next(cfg, lib, s, e).0)
  {
    OneKindKeptExactly(cfg, lib, s, e);
    hide Next, OneKind, OpenMessageAccepted;
  }

  /** Closing removes the memberships of the addressed channels and no other. */
  lemma ClosedMembership(s: Manager, id: Id, h: Id, c: Id)
    requires IndexInv(s)
    ensures InGroup(Close(s, id), h, c) <==> InGroup(s, h, c) && c !in Addressed(s, id)
  {
  }

  lemma CloseRefines(s: Manager, homes: map<Id, Id>, id: Id)
    requires IndexedBy(s, homes)
    ensures IndexedBy(Close(s, id), homes - Addressed(s, id))
    ensures OpenIds(Close(s, id)) == OpenIds(s) - Addressed(s, id)
  {
    CloseKeepsIndex(s, id);
    var s' := Close(s, id);
    var homes' := homes - Addressed(s, id);
    assert OneKind(s') && OpenIds(s') == OpenIds(s) - Addressed(s, id);
    hide Close, InGroup;
    forall c | c in homes' ensures InGroup(s', homes'[c], c) {
      ClosedMembership(s, id, homes'[c], c);
    }
    forall h, c | InGroup(s', h, c) ensures c in homes' && homes'[c] == h {
      ClosedMembership(s, id, h, c);
    }
  }

  lemma RedefineRepresents(s: Manager, homes: map<Id, Id>, g: Id, ids: seq<Id>, redefined: Group)
    requires Represents(s, homes) && redefined.members == Elements(ids)
    ensures Represents(Redefine(s, g, ids, redefined), (homes - Preimage(homes, g)) + (map c | c in Elements(ids) :: g))
  {
    var s' := Redefine(s, g, ids, redefined);
    var homes' := (homes - Preimage(homes, g)) + (map c | c in Elements(ids) :: g);
    hide Redefine, InGroup;
    forall c | c in homes' ensures InGroup(s', homes'[c], c) {
      RedefinedMembership(s, g, ids, redefined, homes'[c], c);
    }
    forall h, c | InGroup(s', h, c) ensures c in homes' && homes'[c] == h {
      RedefinedMembership(s, g, ids, redefined, h, c);
    }
  }

  lemma RegroupRefines(cfg: Config, lib: Library, s: Manager, homes: map<Id, Id>, g: Id, ids: seq<Id>, order: seq<Id>)
    requires IndexedBy(s, homes)
    ensures var s' := Regroup(cfg, s, g, ids).0;
            && s'.standard == s.standard && s'.extended == s.extended
            && (RegroupAccepted(cfg, s, g, ids) ==>
                  IndexedBy(s', HomesAfter(cfg, lib, s, homes, Receive(SetGroup(g, ids), order))))
            && (!RegroupAccepted(cfg, s, g, ids) ==> s' == s)
  {
    RegroupKeepsIndex(cfg, s, g, ids);
    if RegroupAccepted(cfg, s, g, ids) {
      VetOnlyOpen(s, ids, EMPTY_GROUP);
      var redefined := Vet(s, ids, EMPTY_GROUP).group;
      assert OneKind(Redefine(s, g, ids, redefined));
      RedefineRepresents(s, homes, g, ids, redefined);
      hide Vet, IndexInv, Represents, Redefine;
    }
  }

  lemma ShapeRefines(s: Manager, s': Manager, homes: map<Id, Id>)
    requires IndexedBy(s, homes) && SameShape(s, s')
    ensures IndexedBy(s', homes)
  {
    assert forall g, c :: InGroup(s', g, c) == InGroup(s, g, c);
  }

  /** One event follows the map. */
  lemma NextRefines(cfg: Config, lib: Library, s: Manager, homes: map<Id, Id>, e: Event)
    requires IndexedBy(s, homes) && Fresh(s, e)
    ensures IndexedBy(Next(cfg, lib, s, e).0, HomesAfter(cfg, lib, s, homes, e))
  {
    if !Reshapes(e) {
      OthersKeepShape(cfg, lib, s, e);
      ShapeRefines(s, Next(cfg, lib, s, e).0, homes);
      hide Next, IndexedBy;
    } else {
      hide Open, Close, Regroup, IndexedBy;
      match e.msg {
        case OpenStandard(id, g, p, t) => OpenRefines(cfg, lib, s, homes, id, g, Standard, p, t);
        case OpenExtended(id, g, p, t, r) => OpenRefines(cfg, lib, s, homes, id, g, Extended(r), p, t);
        case CloseChannel(id) =>
          AddressedIsPreimage(s, homes, id);
          CloseRefines(s, homes, id);
        case SetGroup(g, ids) => RegroupRefines(cfg, lib, s, homes, g, ids, e.order);
      }
    }
  }

  function HomesAfterRun(cfg: Config, lib: Library, s: Manager, homes: map<Id, Id>, es: seq<Event>): map<Id, Id>
    decreases |es|
  {
    if es == [] then homes else
    var (s', o) := Next(cfg, lib, s, es[0]);
    var homes' := HomesAfter(cfg, lib, s, homes, es[0]);
    if o.Fatal? then homes' else HomesAfterRun(cfg, lib, s', homes', es[1..])
  }

  /** In every run with fresh ids the groups stay the inverse of the map those updates build: no
      channel is in two groups, and no id is both a standard and an extended channel. */
  lemma {:induction false} FreshRunRefines(cfg: Config, lib: Library, s: Manager, homes: map<Id, Id>, es: seq<Event>)
    requires IndexedBy(s, homes) && FreshRun(cfg, lib, s, es)
    ensures IndexedBy(RunEvents(cfg, lib, s, es), HomesAfterRun(cfg, lib, s, homes, es))
    decreases |es|
  {
    if es != [] {
      NextRefines(cfg, lib, s, homes, es[0]);
      var (s', o) := Next(cfg, lib, s, es[0]);
      if !o.Fatal? {
        FreshRunRefines(cfg, lib, s', HomesAfter(cfg, lib, s, homes, es[0]), es[1..]);
      }
    }
  }

  lemma FreshRunFromNothingRefines(cfg: Config, lib: Library, es: seq<Event>)
    requires FreshRun(cfg, lib, NO_CHANNELS, es)
    ensures IndexedBy(RunEvents(cfg, lib, NO_CHANNELS, es), HomesAfterRun(cfg, lib, NO_CHANNELS, map[], es))
  {
    FreshRunRefines(cfg, lib, NO_CHANNELS, map[], es);
  }
}
