// When an Open...Success takes effect and what it then makes, written out.
module Opening {
  import opened Wrappers
  import opened ClientChannels
  import opened MiningTasks
  import opened Routing
  import opened GroupIndex

  /** Every group has recorded a size: it got one with its first member. */
  ghost predicate GroupsAreSized(s: Manager) {
    forall g :: g in s.groups ==> s.groups[g].size != None
  }

  lemma OpenKeepsSized(
    cfg: Config, lib: Library, s: Manager, id: Id, g: Id, kind: Kind, prefix: Bytes, target: nat)
    requires GroupsAreSized(s)
    ensures GroupsAreSized(Open(cfg, lib, s, id, g, kind, prefix, target))
  {
  }

  lemma {:induction false} VetSizes(s: Manager, ids: seq<Id>, acc: Group)
    requires Vet(s, ids, acc).Fits? && (ids != [] || acc.size != None)
    ensures Vet(s, ids, acc).group.size != None
    decreases |ids|
  {
    if ids != [] {
      VetSizes(s, ids[1..], AddMember(acc, ids[0], SizeOf(s, ids[0]).size).value);
    }
  }

  lemma NextKeepsSized(cfg: Config, lib: Library, s: Manager, e: Event)
    requires GroupsAreSized(s)
    ensures GroupsAreSized(Next(cfg, lib, s, e).0)
  {
    if !Reshapes(e) {
      OthersKeepShape(cfg, lib, s, e);
      hide Next;
    } else {
      hide Open, Vet;
      match e.msg {
        case OpenStandard(id, g, p, t) => OpenKeepsSized(cfg, lib, s, id, g, Standard, p, t);
        case OpenExtended(id, g, p, t, r) => OpenKeepsSized(cfg, lib, s, id, g, Extended(r), p, t);
        case CloseChannel(_) =>
        case SetGroup(g, ids) =>
          if RegroupAccepted(cfg, s, g, ids) && ids != [] { VetSizes(s, ids, EMPTY_GROUP); }
      }
    }
  }

  lemma {:induction false} EveryRunKeepsSized(cfg: Config, lib: Library, s: Manager, es: seq<Event>)
    requires GroupsAreSized(s)
    ensures GroupsAreSized(RunEvents(cfg, lib, s, es))
    decreases |es|
  {
    if es != [] {
      NextKeepsSized(cfg, lib, s, es[0]);
      var (s', o) := Next(cfg, lib, s, es[0]);
      hide Next, GroupsAreSized;
      if !o.Fatal? { EveryRunKeepsSized(cfg, lib, s', es[1..]); }
    }
  }

  /** The full extranonce size of a channel of this kind and prefix. */
  function FullSize(kind: Kind, prefix: Bytes): nat {
    if kind.Extended? then |prefix| + kind.rollable else |prefix|
  }

  /** The channel an open makes: no job, no chain tip, no share. */
  function Blank(id: Id, kind: Kind, prefix: Bytes, target: nat): Channel {
    Channel(id, kind, prefix, target, map[], None, None, Accounting(0, [], 0, 0, multiset{}))
  }

  /** A miner on which nothing has happened, with a single-submit token exactly if asked for. */
  predicate IsNew(m: Miner, c: Channel, singleSubmit: bool) {
    && m.channel == c && m.tasks == [] && m.upstream == [] && m.validators == [] && m.handler == Idle
    && !m.poisoned && !m.stopped && m.current !in m.cancelled
    && m.single == (if singleSubmit then Some(false) else None)
  }

  /** Nothing stands in the way of an open: the prefix and the channel are accepted, the group id is no
      open channel, the id is neither the group's nor any other group's, and the group is new or has
      the channel's full extranonce size. */
  predicate MayOpen(lib: Library, s: Manager, id: Id, g: Id, kind: Kind, prefix: Bytes, target: nat) {
    && lib.wirePrefix(prefix) && lib.opens(Blank(id, kind, prefix, target))
    && g !in s.standard && g !in s.extended && id != g && id !in s.groups
    && (g in s.groups ==> s.groups[g].size == Some(FullSize(kind, prefix)))
  }

  /** The manager with one channel more, in group g. */
  ghost predicate OpenedIn(
    cfg: Config, s: Manager, s': Manager, id: Id, g: Id, kind: Kind, prefix: Bytes, target: nat)
  {
    var members := if g in s.groups then s.groups[g].members else {};
    var blank := Blank(id, kind, prefix, target);
    && s'.groups == s.groups[g := Group(members + {id}, Some(FullSize(kind, prefix)))]
    && if kind.Standard?
       then id in s'.standard && IsNew(s'.standard[id], blank, cfg.singleSubmit) && s'.extended == s.extended
            && s'.standard == s.standard[id := s'.standard[id]]
       else id in s'.extended && IsNew(s'.extended[id], blank, cfg.singleSubmit) && s'.standard == s.standard
            && s'.extended == s.extended[id := s'.extended[id]]
  }

  lemma OpenWrittenOut(
    cfg: Config, lib: Library, s: Manager, id: Id, g: Id, kind: Kind, prefix: Bytes, target: nat)
    requires IndexInv(s) && GroupsAreSized(s)
    ensures var s' := Open(cfg, lib, s, id, g, kind, prefix, target);
            if MayOpen(lib, s, id, g, kind, prefix, target)
            then OpenedIn(cfg, s, s', id, g, kind, prefix, target)
            else s' == s
    ensures OpenAccepted(lib, s, id, g, kind, prefix, target) <==> MayOpen(lib, s, id, g, kind, prefix, target)
  {
    NonEmptyOfNonEmpty(s.groups);
    assert NewChannel(id, kind, prefix, target) == Blank(id, kind, prefix, target);
    assert JoinSize(kind, prefix) == FullSize(kind, prefix);
  }

  /** In every state a run of the manager reaches, reused ids and poisoned locks included: an
      Open...Success takes effect exactly if nothing stands in its way, and then makes exactly one new
      channel, in the group it names; otherwise it changes nothing. */
  lemma OpensExactly(cfg: Config, lib: Library, es: seq<Event>, msg: Message, order: seq<Id>)
    ensures var s := RunEvents(cfg, lib, NO_CHANNELS, es);
            var s' := HandleMessage(cfg, lib, s, msg, order).0;
            match msg
            case OpenStandard(id, g, p, t) =>
              if MayOpen(lib, s, id, g, Standard, p, t) then OpenedIn(cfg, s, s', id, g, Standard, p, t) else s' == s
            case OpenExtended(id, g, p, t, r) =>
              if MayOpen(lib, s, id, g, Extended(r), p, t)
              then OpenedIn(cfg, s, s', id, g, Extended(r), p, t)
              else s' == s
            case _ => true
  {
    var s := RunEvents(cfg, lib, NO_CHANNELS, es);
    EveryRunKeepsIndex(cfg, lib, NO_CHANNELS, es);
    EveryRunKeepsSized(cfg, lib, NO_CHANNELS, es);
    hide RunEvents, Open, IndexInv, GroupsAreSized, MayOpen, OpenedIn;
    match msg {
      case OpenStandard(id, g, p, t) => OpenWrittenOut(cfg, lib, s, id, g, Standard, p, t);
      case OpenExtended(id, g, p, t, r) => OpenWrittenOut(cfg, lib, s, id, g, Extended(r), p, t);
      case _ =>
    }
  }

  /** The size reported for an open channel: its prefix, and its rollable bytes if it is extended. */
  lemma ReportedSize(s: Manager, id: Id)
    ensures forall prefix: Bytes :: FullSize(Standard, prefix) == |prefix|
    ensures forall prefix: Bytes, rollable :: FullSize(Extended(rollable), prefix) == |prefix| + rollable
    ensures SizeOf(s, id)
            == if id in s.standard then ReportOf(s.standard[id])
               else if id in s.extended then ReportOf(s.extended[id])
               else Unknown
  {
  }

  function ReportOf(m: Miner): SizeReply {
    if m.poisoned then SizePoisoned else Size(FullSize(m.channel.kind, m.channel.prefix))
  }
}
