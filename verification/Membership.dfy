// What closing and regrouping do to memberships, as properties of a single message.
module Membership {
  import opened Wrappers
  import opened ClientChannels
  import opened MiningTasks
  import opened Routing
  import opened GroupIndex
  import Witnesses

  // ----- closing -----

  /** An addressed channel is in no group after the close, and it is closed unless two channels, a
      standard and an extended one, were open under its id. */
  lemma CloseIsCompleteExactly(s: Manager, id: Id, c: Id)
    requires IndexInv(s) && c in Addressed(s, id)
    ensures IsOpen(Close(s, id), c) <==> c in s.standard && c in s.extended
    ensures forall g :: !InGroup(Close(s, id), g, c)
  {
    forall g ensures !InGroup(Close(s, id), g, c) {
      ClosedMembership(s, id, g, c);
    }
  }

  /** Channels that are not addressed keep their state and their groups. */
  lemma CloseSparesTheRest(s: Manager, id: Id, c: Id, g: Id)
    requires IndexInv(s) && c !in Addressed(s, id)
    ensures var s' := Close(s, id);
            && (c in s'.standard <==> c in s.standard) && (c in s.standard ==> s'.standard[c] == s.standard[c])
            && (c in s'.extended <==> c in s.extended) && (c in s.extended ==> s'.extended[c] == s.extended[c])
            && (InGroup(s', g, c) <==> InGroup(s, g, c))
  {
    ClosedMembership(s, id, g, c);
  }

  /** Exactly the groups left without a member disappear. */
  lemma CloseDropsEmptiedGroups(s: Manager, id: Id, g: Id)
    requires IndexInv(s)
    ensures g in Close(s, id).groups <==> g in s.groups && !(s.groups[g].members <= Addressed(s, id))
  {
    var s' := Close(s, id);
    if g in s.groups && !(s.groups[g].members <= Addressed(s, id)) {
      var c :| c in s.groups[g].members && c !in Addressed(s, id);
      ClosedMembership(s, id, g, c);
      assert InGroup(s, g, c);
    }
    if g in s'.groups {
      var c :| c in s'.groups[g].members;
      ClosedMembership(s, id, g, c);
      assert InGroup(s', g, c);
    }
  }

  /** The channel has a new miner and is in the group it named, and in no other. */
  ghost predicate OpenedAfresh(cfg: Config, s: Manager, c: Id, g: Id, kind: Kind, prefix: Bytes, target: nat) {
    && (forall h :: InGroup(s, h, c) <==> h == g)
    && (var started := NewMiner(NewChannel(c, kind, prefix, target), cfg.singleSubmit);
        if kind.Standard? then c in s.standard && s.standard[c] == started
        else c in s.extended && s.extended[c] == started)
  }

  /** A channel opened under an id that is not open starts from a new miner, in the group it names
      only, whatever was open under that id before and however long ago it closed. */
  lemma ReopenedChannelInheritsNothing(
    cfg: Config, lib: Library, s: Manager, c: Id, g: Id, kind: Kind, prefix: Bytes, target: nat)
    requires IndexInv(s) && !IsOpen(s, c) && OpenAccepted(lib, s, c, g, kind, prefix, target)
    ensures OpenedAfresh(cfg, Open(cfg, lib, s, c, g, kind, prefix, target), c, g, kind, prefix, target)
  {
    forall h { OpenedMembership(cfg, lib, s, c, g, kind, prefix, target, h, c); }
    assert forall h :: InGroup(s, h, c) ==> c in OpenIds(s);
    hide InGroup, NewMiner, NewChannel;
  }

  /** So does one opened right after a close that addressed its id, be the id open still as the
      other kind. */
  lemma ReopenedAfterCloseInheritsNothing(
    cfg: Config, lib: Library, s: Manager, id: Id, c: Id, g: Id, kind: Kind, prefix: Bytes, target: nat)
    requires IndexInv(s) && c in Addressed(s, id)
    requires OpenAccepted(lib, Close(s, id), c, g, kind, prefix, target)
    ensures OpenedAfresh(cfg, Open(cfg, lib, Close(s, id), c, g, kind, prefix, target), c, g, kind, prefix, target)
  {
    forall h { ClosedMembership(s, id, h, c); }
    forall h { OpenedMembership(cfg, lib, Close(s, id), c, g, kind, prefix, target, h, c); }
    hide Close, InGroup, NewMiner, NewChannel;
  }

  /** Two channels can share an id when a server reuses one: then closing it leaves the extended
      one open, in no group. */
  lemma ReusedIdSurvivesClose()
    ensures exists cfg: Config, lib: Library, es: seq<Event> ::
              && |es| == 3 && es[2] == Receive(CloseChannel(2), [])
              && (var before := RunEvents(cfg, lib, NO_CHANNELS, es[..2]);
                  2 in before.standard && 2 in before.extended)
              && (var s := RunEvents(cfg, lib, NO_CHANNELS, es);
                  IsOpen(s, 2) && forall g :: !InGroup(s, g, 2))
  {
    var cfg := Config(false, false);
    var lib := Witnesses.AGREEABLE;
    var e0 := Receive(OpenStandard(2, 1, [], 0), []);
    var e1 := Receive(OpenExtended(2, 1, [], 0, 0), []);
    var e2 := Receive(CloseChannel(2), []);
    var group := Group({2}, Some(0));
    assert AddMember(EMPTY_GROUP, 2, 0) == Some(group) by { assert {} + {2} == {2}; }
    assert AddMember(group, 2, 0) == Some(group) by { assert {2} + {2} == {2}; }
    hide AddMember, NewMiner, NewChannel, NonEmpty;
    var c := NewChannel(2, Standard, [], 0);
    var d := NewChannel(2, Extended(0), [], 0);
    var s1 := Manager(map[2 := NewMiner(c, false)], map[], map[1 := group]);
    var s2 := Manager(map[2 := NewMiner(c, false)], map[2 := NewMiner(d, false)], map[1 := group]);
    assert Next(cfg, lib, NO_CHANNELS, e0) == (s1, Continue);
    assert s1.groups[1 := group] == s1.groups && GroupToJoin(s1, 1) == group && !IdsCollide(s1, 2, 1);
    assert Routing.JoinGroup(s1, 2, 1, 0) == (s1, true);
    assert s1.extended[2 := NewMiner(d, false)] == s2.extended;
    assert Next(cfg, lib, s1, e1) == (s2, Continue);
    var s3 := Close(s2, 2);
    CloseIsCompleteExactly(s2, 2, 2);
    assert Next(cfg, lib, s2, e2) == (s3, Continue);
    hide Next, Close, RunEvents;
    RunOfThree(cfg, lib, NO_CHANNELS, e0, e1, e2);
    assert [e0, e1, e2][..2] == [e0, e1];
  }

  // ----- regrouping -----

  ghost predicate PoisonFree(s: Manager) {
    && (forall id :: id in s.standard ==> !s.standard[id].poisoned)
    && (forall id :: id in s.extended ==> !s.extended[id].poisoned)
  }

  /** All listed channels are open and have this full extranonce size. */
  ghost predicate AllOfSize(s: Manager, ids: seq<Id>, size: nat) {
    forall i :: 0 <= i < |ids| ==> SizeOf(s, ids[i]) == Size(size)
  }

  lemma {:induction false} VetAgainst(s: Manager, ids: seq<Id>, acc: Group, size: nat)
    requires acc.size == Some(size)
    ensures AllOfSize(s, ids, size) ==> Vet(s, ids, acc) == Fits(Group(acc.members + Elements(ids), Some(size)))
    ensures Vet(s, ids, acc).Fits? ==> AllOfSize(s, ids, size)
    decreases |ids|
  {
    if ids == [] {
      assert acc.members + Elements(ids) == acc.members;
    } else if SizeOf(s, ids[0]) == Size(size) {
      var acc' := AddMember(acc, ids[0], size).value;
      VetAgainst(s, ids[1..], acc', size);
      assert acc'.members + Elements(ids[1..]) == acc.members + Elements(ids);
      assert AllOfSize(s, ids, size) ==> AllOfSize(s, ids[1..], size);
      if AllOfSize(s, ids[1..], size) {
        forall i | 0 <= i < |ids| ensures SizeOf(s, ids[i]) == Size(size) {
          if i > 0 { assert ids[i] == ids[1..][i - 1]; }
        }
      }
    }
  }

  /** A list is vetted successfully exactly when its channels are all open and of one size; the
      redefined group then has exactly those members and that size. */
  lemma VetExactly(s: Manager, ids: seq<Id>)
    ensures Vet(s, ids, EMPTY_GROUP).Fits? <==> ids == [] || exists size :: AllOfSize(s, ids, size)
    ensures forall size :: ids != [] && AllOfSize(s, ids, size) ==>
              Vet(s, ids, EMPTY_GROUP) == Fits(Group(Elements(ids), Some(size)))
    ensures ids == [] ==> Vet(s, ids, EMPTY_GROUP) == Fits(EMPTY_GROUP)
  {
    if ids != [] && SizeOf(s, ids[0]).Size? {
      var size := SizeOf(s, ids[0]).size;
      var acc := AddMember(EMPTY_GROUP, ids[0], size).value;
      assert acc == Group({ids[0]}, Some(size));
      VetAgainst(s, ids[1..], acc, size);
      assert {ids[0]} + Elements(ids[1..]) == Elements(ids);
      if AllOfSize(s, ids[1..], size) {
        forall i | 0 <= i < |ids| ensures SizeOf(s, ids[i]) == Size(size) {
          if i > 0 { assert ids[i] == ids[1..][i - 1]; }
        }
        assert AllOfSize(s, ids, size);
      }
      forall n | AllOfSize(s, ids, n) ensures n == size && AllOfSize(s, ids[1..], size) {
        assert SizeOf(s, ids[0]) == Size(n);
      }
    }
    if ids != [] && !SizeOf(s, ids[0]).Size? {
      forall n ensures !AllOfSize(s, ids, n) {
      }
    }
  }

  /** SetGroupChannel takes effect exactly when the connection allows it, the group id is not an
      open channel, and the listed channels are all open and share one full extranonce size; refused,
      it changes nothing. */
  lemma RegroupIsAllOrNothing(cfg: Config, s: Manager, g: Id, ids: seq<Id>)
    ensures RegroupAccepted(cfg, s, g, ids) <==>
              !cfg.requiresStandardJobs && !IsOpen(s, g) && (ids == [] || exists size :: AllOfSize(s, ids, size))
    ensures !RegroupAccepted(cfg, s, g, ids) ==> Regroup(cfg, s, g, ids).0 == s
    ensures RegroupAccepted(cfg, s, g, ids) ==>
              forall h, c :: InGroup(Regroup(cfg, s, g, ids).0, h, c)
                             <==> if c in Elements(ids) then h == g else h != g && InGroup(s, h, c)
  {
    VetExactly(s, ids);
    if RegroupAccepted(cfg, s, g, ids) {
      var redefined := Vet(s, ids, EMPTY_GROUP).group;
      assert Elements([]) == {};
      assert redefined.members == Elements(ids);
      forall h, c ensures InGroup(Regroup(cfg, s, g, ids).0, h, c)
                          <==> if c in Elements(ids) then h == g else h != g && InGroup(s, h, c) {
        RedefinedMembership(s, g, ids, redefined, h, c);
      }
    }
  }

  /** Order and repetition in the list do not matter to the groups; while no lock is poisoned they do
      not matter to the outcome either, for then the vetting never gets stuck. */
  lemma RegroupIgnoresOrder(cfg: Config, s: Manager, g: Id, ids: seq<Id>, ids': seq<Id>)
    requires Elements(ids) == Elements(ids')
    ensures Regroup(cfg, s, g, ids).0 == Regroup(cfg, s, g, ids').0
    ensures PoisonFree(s) ==> Regroup(cfg, s, g, ids) == Regroup(cfg, s, g, ids')
  {
    VetExactly(s, ids);
    VetExactly(s, ids');
    assert ids == [] <==> ids' == [] by {
      if ids != [] { assert ids[0] in Elements(ids); }
      if ids' != [] { assert ids'[0] in Elements(ids'); }
    }
    forall size ensures AllOfSize(s, ids, size) <==> AllOfSize(s, ids', size) {
      if AllOfSize(s, ids, size) { AllOfSizeBySet(s, ids, ids', size); }
      if AllOfSize(s, ids', size) { AllOfSizeBySet(s, ids', ids, size); }
    }
    if PoisonFree(s) {
      NeverStuck(s, ids, EMPTY_GROUP);
      NeverStuck(s, ids', EMPTY_GROUP);
    }
    hide Vet, AllOfSize, PoisonFree;
  }

  lemma AllOfSizeBySet(s: Manager, ids: seq<Id>, ids': seq<Id>, size: nat)
    requires AllOfSize(s, ids, size) && Elements(ids') <= Elements(ids)
    ensures AllOfSize(s, ids', size)
  {
    forall i | 0 <= i < |ids'| ensures SizeOf(s, ids'[i]) == Size(size) {
      assert ids'[i] in Elements(ids');
    }
  }

  lemma {:induction false} NeverStuck(s: Manager, ids: seq<Id>, acc: Group)
    requires PoisonFree(s)
    ensures !Vet(s, ids, acc).Stuck?
    decreases |ids|
  {
    if ids != [] && SizeOf(s, ids[0]).Size? && AddMember(acc, ids[0], SizeOf(s, ids[0]).size).Some? {
      NeverStuck(s, ids[1..], AddMember(acc, ids[0], SizeOf(s, ids[0]).size).value);
    }
  }

  /** The same SetGroupChannel a second time changes nothing. */
  lemma RegroupIsIdempotent(cfg: Config, s: Manager, g: Id, ids: seq<Id>)
    requires IndexInv(s)
    ensures var s' := Regroup(cfg, s, g, ids).0; Regroup(cfg, s', g, ids).0 == s'
  {
    if RegroupAccepted(cfg, s, g, ids) {
      var s' := Regroup(cfg, s, g, ids).0;
      RegroupKeepsIndex(cfg, s, g, ids);
      SameVet(s, s', ids, EMPTY_GROUP);
      VetExactly(s, ids);
      var redefined := Vet(s, ids, EMPTY_GROUP).group;
      RedefineAgain(s, g, ids, redefined);
    }
  }

  lemma {:induction false} SameVet(s: Manager, s': Manager, ids: seq<Id>, acc: Group)
    requires s'.standard == s.standard && s'.extended == s.extended
    ensures Vet(s', ids, acc) == Vet(s, ids, acc)
    decreases |ids|
  {
    if ids != [] && SizeOf(s, ids[0]).Size? && AddMember(acc, ids[0], SizeOf(s, ids[0]).size).Some? {
      SameVet(s, s', ids[1..], AddMember(acc, ids[0], SizeOf(s, ids[0]).size).value);
    }
  }

  lemma RedefineAgain(s: Manager, g: Id, ids: seq<Id>, redefined: Group)
    requires redefined.members == Elements(ids)
    ensures var s' := Redefine(s, g, ids, redefined); Redefine(s', g, ids, redefined) == s'
  {
    var s' := Redefine(s, g, ids, redefined);
    var gone := Elements(ids);
    forall h | h in s'.groups && h != g ensures WithoutMembers(s'.groups[h], gone) == s'.groups[h] {
      assert s'.groups[h] == WithoutMembers(s.groups[h], gone);
      assert s'.groups[h].members - gone == s'.groups[h].members;
    }
    if ids != [] {
      assert ids[0] in gone;
      assert s'.groups[g] == redefined;
    }
    assert Redefine(s', g, ids, redefined).groups == s'.groups;
  }
}
