// Every member of a group has the group's full extranonce size, until a SetExtranoncePrefix gives a
// grouped channel a prefix of another length: the code checks sizes when a channel joins and when a
// group is redefined, never when a prefix changes.
module ExtranonceSizes {
  import opened Wrappers
  import opened ClientChannels
  import opened MiningTasks
  import opened Routing
  import opened GroupIndex
  import opened Membership
  import opened Projection
  import opened Measures
  import opened SampleRuns

  function SizeOn(m: Miner): nat {
    FullExtranonceSize(m.channel)
  }

  function LocalSize(s: Manager, id: Id): Option<nat> {
    LocalOf(s, id, SizeOn)
  }

  ghost predicate SizesAgree(s: Manager) {
    forall g, c :: InGroup(s, g, c) ==> LocalSize(s, c) == s.groups[g].size && LocalSize(s, c).Some?
  }

  // ----- what each message does to sizes -----

  /** A request that changes no prefix keeps the channel's size. */
  lemma HandleKeepsSize(lib: Library, m: Miner, r: Request)
    requires !r.Prefix?
    ensures SizeOn(Handle(lib, m, r).0) == SizeOn(m)
  {
    ApplyFrame(lib, m.channel, r);
    hide Apply;
  }

  lemma StepKeepsSize(lib: Library, m: Miner, l: Label)
    requires BackgroundLabel(l)
    ensures SizeOn(Step(lib, m, l)) == SizeOn(m)
  {
    if l.Take? { ActFrame(lib, m, l.task, l.act); }
    hide ActStep;
  }

  /** Apart from opening, closing and prefix changes, an event leaves the sizes of all channels. */
  lemma QuietEventKeepsSize(cfg: Config, lib: Library, s: Manager, e: Event, id: Id)
    requires e.Receive? ==> !Opens(e.msg) && !e.msg.CloseChannel? && !e.msg.SetPrefix?
    ensures LocalSize(Next(cfg, lib, s, e).0, id) == LocalSize(s, id)
  {
    forall m, r: Request | !r.Prefix? ensures SizeOn(Handle(lib, m, r).0) == SizeOn(m) { HandleKeepsSize(lib, m, r); }
    forall m, l | BackgroundLabel(l) ensures SizeOn(Step(lib, m, l)) == SizeOn(m) { StepKeepsSize(lib, m, l); }
    hide Handle, Step, HandleMessage, Advance, LocalOf;
    match e {
      case Receive(msg, order) => MessageLeaves(cfg, lib, s, msg, order, id, SizeOn);
      case Background(i, standard, l) => AdvanceLeaves(lib, s, i, standard, l, id, SizeOn);
    }
  }

  lemma OpenKeepsSizes(
    cfg: Config, lib: Library, s: Manager, id: Id, g: Id, kind: Kind, prefix: Bytes, target: nat)
    requires IndexInv(s) && OneKind(s) && SizesAgree(s) && !IsOpen(s, id)
    ensures SizesAgree(Open(cfg, lib, s, id, g, kind, prefix, target))
  {
    var s' := Open(cfg, lib, s, id, g, kind, prefix, target);
    OpenChanges(cfg, lib, s, id, g, kind, prefix, target);
    if OpenAccepted(lib, s, id, g, kind, prefix, target) {
      var joined := AddMember(GroupToJoin(s, g), id, JoinSize(kind, prefix)).value;
      assert s'.groups == s.groups[g := joined];
      forall h, c | InGroup(s', h, c)
        ensures LocalSize(s', c) == s'.groups[h].size && LocalSize(s', c).Some?
      {
        OpenedMembership(cfg, lib, s, id, g, kind, prefix, target, h, c);
        OpenProjects(cfg, lib, s, c, id, g, kind, prefix, target);
        hide Open;
        if c == id {
          assert !InGroup(s, h, c);
        } else {
          assert InGroup(s, h, c);
        }
      }
    }
  }

  lemma CloseKeepsSizes(s: Manager, id: Id)
    requires IndexInv(s) && OneKind(s) && SizesAgree(s)
    ensures SizesAgree(Close(s, id))
  {
    var s' := Close(s, id);
    forall h, c | InGroup(s', h, c) ensures LocalSize(s', c) == s'.groups[h].size && LocalSize(s', c).Some? {
      ClosedMembership(s, id, h, c);
      CloseProjects(s, id, c);
      assert s'.groups[h].size == s.groups[h].size;
      hide Close;
    }
  }

  /** A regrouping that meets a poisoned lock touches no group; an accepted one has vetted its list. */
  lemma RegroupKeepsSizes(cfg: Config, s: Manager, g: Id, ids: seq<Id>)
    requires SizesAgree(s)
    ensures SizesAgree(Regroup(cfg, s, g, ids).0)
  {
    if RegroupAccepted(cfg, s, g, ids) {
      VetExactly(s, ids);
      var redefined := Vet(s, ids, EMPTY_GROUP).group;
      var s' := Redefine(s, g, ids, redefined);
      assert Elements([]) == {};
      forall h, c | InGroup(s', h, c) ensures LocalSize(s', c) == s'.groups[h].size && LocalSize(s', c).Some? {
        RedefinedMembership(s, g, ids, redefined, h, c);
        if c in Elements(ids) {
          var i :| 0 <= i < |ids| && ids[i] == c;
          var size :| AllOfSize(s, ids, size);
          assert SizeOf(s, ids[i]) == Size(size);
          assert s'.groups[g] == redefined;
        } else {
          assert s'.groups[h].size == s.groups[h].size;
        }
      }
    }
  }

  /** Whether a SetExtranoncePrefix takes effect: it is refused by a malformed prefix, an id that is
      not open, a poisoned lock, or the channel itself. */
  predicate PrefixTaken(lib: Library, s: Manager, id: Id, prefix: Bytes) {
    && lib.wirePrefix(prefix) && Local(s, id).Some? && !Local(s, id).value.poisoned
    && lib.acceptsPrefix(Local(s, id).value.channel, prefix)
  }

  predicate KeepsLength(s: Manager, id: Id, prefix: Bytes) {
    Local(s, id).Some? && |prefix| == |Local(s, id).value.channel.prefix|
  }

  ghost predicate Grouped(s: Manager, id: Id) {
    exists g :: InGroup(s, g, id)
  }

  lemma PrefixOnOne(lib: Library, m: Miner, prefix: Bytes)
    ensures SizeOn(Handle(lib, m, Prefix(prefix)).0)
            == if !m.poisoned && lib.acceptsPrefix(m.channel, prefix)
               then FullExtranonceSize(m.channel.(prefix := prefix)) else SizeOn(m)
  {
  }

  lemma PrefixProjects(lib: Library, s: Manager, id: Id, prefix: Bytes, c: Id)
    requires OneKind(s)
    ensures var s' := SetPrefixOn(lib, s, id, prefix).0;
            && s'.groups == s.groups
            && LocalSize(s', c) == if c == id && PrefixTaken(lib, s, id, prefix)
                                   then Some(FullExtranonceSize(Local(s, id).value.channel.(prefix := prefix)))
                                   else LocalSize(s, c)
  {
    forall m: Miner { PrefixOnOne(lib, m, prefix); }
    hide Handle, FullExtranonceSize, SizeOn;
  }

  /** A SetExtranoncePrefix keeps the agreement of sizes exactly when it is refused, or keeps the
      prefix length, or concerns a channel in no group. */
  lemma PrefixKeepsSizesExactly(lib: Library, s: Manager, id: Id, prefix: Bytes)
    requires OneKind(s) && SizesAgree(s)
    ensures SizesAgree(SetPrefixOn(lib, s, id, prefix).0)
            <==> !PrefixTaken(lib, s, id, prefix) || KeepsLength(s, id, prefix) || !Grouped(s, id)
  {
    var s' := SetPrefixOn(lib, s, id, prefix).0;
    forall c ensures s'.groups == s.groups &&
                     LocalSize(s', c) == if c == id && PrefixTaken(lib, s, id, prefix)
                                         then Some(FullExtranonceSize(Local(s, id).value.channel.(prefix := prefix)))
                                         else LocalSize(s, c)
    {
      PrefixProjects(lib, s, id, prefix, c);
    }
    assert forall g, c :: InGroup(s', g, c) == InGroup(s, g, c);
    hide SetPrefixOn, InGroup, OneKind;
    if PrefixTaken(lib, s, id, prefix) && !KeepsLength(s, id, prefix) && Grouped(s, id) {
      var g :| InGroup(s, g, id);
      assert InGroup(s', g, id);
      assert LocalSize(s', id) != LocalSize(s, id);
    }
  }

  /** Reachable: two standard channels in one group, then a longer prefix for one of them. */
  lemma PrefixCanSplitAGroup()
    ensures exists cfg: Config, lib: Library, es: seq<Event> ::
              SoundRun(cfg, lib, NO_CHANNELS, es) &&
              var s := RunEvents(cfg, lib, NO_CHANNELS, es);
              InGroup(s, 1, 2) && InGroup(s, 1, 3) && LocalSize(s, 2) != LocalSize(s, 3)
  {
    TwoOpens();
    assert LocalSize(TWO_OPEN, 2) == Some(0) && LocalSize(TWO_OPEN, 3) == Some(0);
    var e := Receive(SetPrefix(2, [0]), []);
    assert Elements([]) == {};
    hide SampleOpened, NewMiner, NewChannel, LocalSize, RunEvents, SoundRun;
    AfterTwoOpens(e);
    PrefixProjects(Witnesses.AGREEABLE, TWO_OPEN, 2, [0], 2);
    PrefixProjects(Witnesses.AGREEABLE, TWO_OPEN, 2, [0], 3);
    hide SetPrefixOn;
  }

  // ----- whole runs -----

  /** A prefix message that takes effect keeps the length of its channel's prefix. */
  predicate LengthKept(lib: Library, s: Manager, e: Event) {
    e.Receive? && e.msg.SetPrefix? && PrefixTaken(lib, s, e.msg.id, e.msg.prefix)
    ==> KeepsLength(s, e.msg.id, e.msg.prefix)
  }

  ghost predicate LengthKeptRun(cfg: Config, lib: Library, s: Manager, es: seq<Event>)
    decreases |es|
  {
    es == [] ||
    (LengthKept(lib, s, es[0]) &&
     var (s', o) := Next(cfg, lib, s, es[0]);
     o.Fatal? || LengthKeptRun(cfg, lib, s', es[1..]))
  }

  lemma ShapeKeepsSizes(s: Manager, s': Manager)
    requires SizesAgree(s) && SameShape(s, s')
    requires forall c :: LocalSize(s', c) == LocalSize(s, c)
    ensures SizesAgree(s')
  {
    forall g, c | InGroup(s', g, c) ensures LocalSize(s', c) == s'.groups[g].size && LocalSize(s', c).Some? {
      assert InGroup(s, g, c);
    }
  }

  lemma NextKeepsSizes(cfg: Config, lib: Library, s: Manager, e: Event)
    requires IndexInv(s) && OneKind(s) && Fresh(s, e) && SizesAgree(s) && LengthKept(lib, s, e)
    ensures SizesAgree(Next(cfg, lib, s, e).0)
  {
    if e.Receive? && e.msg.SetPrefix? {
      PrefixKeepsSizesExactly(lib, s, e.msg.id, e.msg.prefix);
      hide SetPrefixOn, SizesAgree;
    } else if !Reshapes(e) {
      OthersKeepShape(cfg, lib, s, e);
      forall c ensures LocalSize(Next(cfg, lib, s, e).0, c) == LocalSize(s, c) {
        QuietEventKeepsSize(cfg, lib, s, e, c);
      }
      ShapeKeepsSizes(s, Next(cfg, lib, s, e).0);
      hide Next, SizesAgree, LocalSize;
    } else {
      hide Open, Close, Regroup, SizesAgree;
      match e.msg {
        case OpenStandard(id, g, p, t) => OpenKeepsSizes(cfg, lib, s, id, g, Standard, p, t);
        case OpenExtended(id, g, p, t, r) => OpenKeepsSizes(cfg, lib, s, id, g, Extended(r), p, t);
        case CloseChannel(id) => CloseKeepsSizes(s, id);
        case SetGroup(g, ids) => RegroupKeepsSizes(cfg, s, g, ids);
      }
    }
  }

  /** While prefixes keep their length, all members of a group share its full extranonce size in
      every run with fresh ids, poisoned locks included. */
  lemma {:induction false} RunKeepsSizes(cfg: Config, lib: Library, s: Manager, es: seq<Event>)
    requires IndexInv(s) && OneKind(s) && SizesAgree(s)
    requires FreshRun(cfg, lib, s, es) && LengthKeptRun(cfg, lib, s, es)
    ensures SizesAgree(RunEvents(cfg, lib, s, es))
    decreases |es|
  {
    if es != [] {
      NextKeepsSizes(cfg, lib, s, es[0]);
      NextKeepsIndex(cfg, lib, s, es[0]);
      NextKeepsOneKind(cfg, lib, s, es[0]);
      var (s', o) := Next(cfg, lib, s, es[0]);
      hide Next, SizesAgree, IndexInv, OneKind;
      if !o.Fatal? { RunKeepsSizes(cfg, lib, s', es[1..]); }
    }
  }

  lemma RunFromNothingKeepsSizes(cfg: Config, lib: Library, es: seq<Event>)
    requires FreshRun(cfg, lib, NO_CHANNELS, es) && LengthKeptRun(cfg, lib, NO_CHANNELS, es)
    ensures SizesAgree(RunEvents(cfg, lib, NO_CHANNELS, es))
  {
    RunKeepsSizes(cfg, lib, NO_CHANNELS, es);
  }

  // ----- the size of one channel over its life -----

  /** The event neither closes the channel nor gives its prefix another length. */
  predicate Spares(lib: Library, s: Manager, id: Id, e: Event) {
    e.Receive? ==>
      && (e.msg.CloseChannel? ==> id !in Addressed(s, e.msg.id))
      && (e.msg.SetPrefix? && e.msg.id == id ==> LengthKept(lib, s, e))
  }

  ghost predicate SparingRun(cfg: Config, lib: Library, s: Manager, id: Id, es: seq<Event>)
    decreases |es|
  {
    es == [] ||
    (Spares(lib, s, id, es[0]) &&
     var (s', o) := Next(cfg, lib, s, es[0]);
     o.Fatal? || SparingRun(cfg, lib, s', id, es[1..]))
  }

  lemma NextKeepsSizeOf(cfg: Config, lib: Library, s: Manager, id: Id, e: Event)
    requires IndexInv(s) && OneKind(s) && IsOpen(s, id) && Fresh(s, e) && Spares(lib, s, id, e)
    ensures LocalSize(Next(cfg, lib, s, e).0, id) == LocalSize(s, id)
  {
    if e.Receive? && (Opens(e.msg) || e.msg.CloseChannel? || e.msg.SetPrefix?) {
      hide Open, Close, SetPrefixOn, IndexInv;
      match e.msg {
        case OpenStandard(i, g, p, t) => OpenProjects(cfg, lib, s, id, i, g, Standard, p, t);
        case OpenExtended(i, g, p, t, r) => OpenProjects(cfg, lib, s, id, i, g, Extended(r), p, t);
        case CloseChannel(i) => CloseProjects(s, i, id);
        case SetPrefix(i, p) => PrefixProjects(lib, s, i, p, id);
      }
    } else {
      QuietEventKeepsSize(cfg, lib, s, e, id);
    }
  }

  lemma {:induction false} RunKeepsSizeOf(cfg: Config, lib: Library, s: Manager, id: Id, es: seq<Event>)
    requires IndexInv(s) && OneKind(s) && IsOpen(s, id)
    requires FreshRun(cfg, lib, s, es) && SparingRun(cfg, lib, s, id, es)
    ensures LocalSize(RunEvents(cfg, lib, s, es), id) == LocalSize(s, id)
    decreases |es|
  {
    if es != [] {
      NextKeepsSizeOf(cfg, lib, s, id, es[0]);
      NextKeepsIndex(cfg, lib, s, es[0]);
      NextKeepsOneKind(cfg, lib, s, es[0]);
      var (s', o) := Next(cfg, lib, s, es[0]);
      hide Next, IndexInv, OneKind;
      assert IsOpen(s', id);
      if !o.Fatal? { RunKeepsSizeOf(cfg, lib, s', id, es[1..]); }
    }
  }

  /** The size a channel joined its group with is the size reported for it from then on: in every
      later run, until the channel closes or gets a prefix of another length, whatever happens to
      its group. Only a poisoned lock hides it. */
  lemma JoinSizeIsReported(cfg: Config, lib: Library, s: Manager, id: Id, g: Id, kind: Kind, prefix: Bytes,
                           target: nat, es: seq<Event>)
    requires IndexInv(s) && OneKind(s) && !IsOpen(s, id) && OpenAccepted(lib, s, id, g, kind, prefix, target)
    requires var started := Open(cfg, lib, s, id, g, kind, prefix, target);
             FreshRun(cfg, lib, started, es) && SparingRun(cfg, lib, started, id, es)
    ensures var s' := RunEvents(cfg, lib, Open(cfg, lib, s, id, g, kind, prefix, target), es);
            var size := match kind case Standard => |prefix| case Extended(rollable) => |prefix| + rollable;
            && LocalSize(s', id) == Some(size)
            && SizeOf(s', id) == if Local(s', id).value.poisoned then SizePoisoned else Size(size)
  {
    var started := Open(cfg, lib, s, id, g, kind, prefix, target);
    OpenKeepsIndex(cfg, lib, s, id, g, kind, prefix, target);
    OpenChanges(cfg, lib, s, id, g, kind, prefix, target);
    OpenProjects(cfg, lib, s, id, id, g, kind, prefix, target);
    assert LocalSize(started, id) == Some(JoinSize(kind, prefix));
    hide Open, OpenAccepted, IndexInv, OneKind;
    RunKeepsSizeOf(cfg, lib, started, id, es);
  }
}
