// A message addressed to a group does to each member what the same message addressed to that
// member alone does, in whatever order the members are visited.
module FanOutOrder {
  import opened ClientChannels
  import opened MiningTasks
  import opened Routing
  import opened GroupIndex

  predicate NoRepeats(ids: seq<Id>) {
    forall i, j :: 0 <= i < j < |ids| ==> ids[i] != ids[j]
  }

  /** These miners take the request, all at once; the others stay as they are. */
  function AllAsked(lib: Library, miners: map<Id, Miner>, ids: set<Id>, r: Request): map<Id, Miner> {
    map id | id in miners :: if id in ids then Handle(lib, miners[id], r).0 else miners[id]
  }

  /** What a standard channel is asked: a group's extended job reaches it as one it derives itself. */
  function AskedOfStandard(f: Fanned): Request {
    match f
    case FanPrevHash(p) => PrevHash(p)
    case FanTarget(t) => Target(t)
    case FanJob(j) => GroupJob(j)
  }

  /** What an extended channel is asked: it stores a group's extended job as it is. */
  function AskedOfExtended(f: Fanned): Request {
    match f
    case FanPrevHash(p) => PrevHash(p)
    case FanTarget(t) => Target(t)
    case FanJob(j) => ExtendedJob(j)
  }

  function AllDelivered(lib: Library, s: Manager, ids: set<Id>, f: Fanned): Manager {
    s.(standard := AllAsked(lib, s.standard, ids, AskedOfStandard(f)),
       extended := AllAsked(lib, s.extended, ids - s.standard.Keys, AskedOfExtended(f)))
  }

  lemma HandleKeepsPoison(lib: Library, m: Miner, r: Request)
    ensures Handle(lib, m, r).0.poisoned == m.poisoned
    ensures Handle(lib, m, r).1 == Poisoned <==> m.poisoned
  {
  }

  lemma AskedOne(lib: Library, miners: map<Id, Miner>, id: Id, r: Request)
    ensures AllAsked(lib, miners, {}, r) == miners
    ensures AllAsked(lib, miners, {id}, r)
            == if id in miners then miners[id := Handle(lib, miners[id], r).0] else miners
    ensures id in miners ==> Handle(lib, miners[id], r).0.poisoned == miners[id].poisoned
                             && (Handle(lib, miners[id], r).1 == Poisoned <==> miners[id].poisoned)
  {
    if id in miners { HandleKeepsPoison(lib, miners[id], r); }
    hide Handle;
  }

  /** The lock of the channel the id finds is not poisoned. */
  predicate Healthy(s: Manager, id: Id) {
    && (id in s.standard ==> !s.standard[id].poisoned)
    && (id in s.extended && id !in s.standard ==> !s.extended[id].poisoned)
  }

  lemma DeliverIsPointwise(lib: Library, s: Manager, id: Id, f: Fanned)
    ensures Healthy(s, id) ==> Deliver(lib, s, id, f) == (AllDelivered(lib, s, {id}, f), Continue)
    ensures !Healthy(s, id) ==> Deliver(lib, s, id, f) == (s, Fatal(PoisonLock))
    ensures forall i :: Healthy(AllDelivered(lib, s, {id}, f), i) == Healthy(s, i)
  {
    hide Handle, AllAsked;
    AskedOne(lib, s.standard, id, AskedOfStandard(f));
    AskedOne(lib, s.extended, id, AskedOfExtended(f));
    assert {id} - s.standard.Keys == if id in s.standard then {} else {id};
    if !Healthy(s, id) { PoisonedHandleDoesNothing(lib, s, id, f); }
  }

  lemma PoisonedHandleDoesNothing(lib: Library, s: Manager, id: Id, f: Fanned)
    requires !Healthy(s, id)
    ensures Deliver(lib, s, id, f) == (s, Fatal(PoisonLock))
  {
    if id in s.standard {
      assert s.standard[id := s.standard[id]] == s.standard;
    } else {
      assert s.extended[id := s.extended[id]] == s.extended;
    }
  }

  lemma DeliveredInTwoParts(lib: Library, s: Manager, id: Id, rest: set<Id>, f: Fanned)
    requires id !in rest
    ensures AllDelivered(lib, AllDelivered(lib, s, {id}, f), rest, f) == AllDelivered(lib, s, {id} + rest, f)
  {
    hide Handle;
  }

  /** Visiting distinct channels one by one is asking them all at once. */
  lemma {:induction false} FanOutIsPointwise(lib: Library, s: Manager, order: seq<Id>, f: Fanned)
    requires NoRepeats(order) && forall i :: 0 <= i < |order| ==> Healthy(s, order[i])
    ensures Routing.FanOut(lib, s, order, f) == (AllDelivered(lib, s, Elements(order), f), Continue)
    decreases |order|
  {
    if order == [] {
      assert Elements(order) == {};
      hide Handle;
      assert AllDelivered(lib, s, {}, f) == s;
    } else {
      DeliverIsPointwise(lib, s, order[0], f);
      FanOutIsPointwise(lib, AllDelivered(lib, s, {order[0]}, f), order[1..], f);
      DeliveredInTwoParts(lib, s, order[0], Elements(order[1..]), f);
      assert Elements(order) == {order[0]} + Elements(order[1..]);
      hide Deliver, AllDelivered, Healthy;
    }
  }

  /** A poisoned lock ends the visits: the members before it took the message, it and those after it
      did not, and the run ends with the error. */
  lemma {:induction false} FanOutStopsAtPoison(lib: Library, s: Manager, order: seq<Id>, f: Fanned, k: nat)
    requires NoRepeats(order) && k < |order| && !Healthy(s, order[k]) && forall i :: 0 <= i < k ==> Healthy(s, order[i])
    ensures Routing.FanOut(lib, s, order, f) == (AllDelivered(lib, s, Elements(order[..k]), f), Fatal(PoisonLock))
    decreases |order|
  {
    DeliverIsPointwise(lib, s, order[0], f);
    if k == 0 {
      assert Elements(order[..0]) == {};
      hide Handle;
      assert AllDelivered(lib, s, {}, f) == s;
    } else {
      assert order[1..][..k - 1] == order[1..k] && Elements(order[..k]) == {order[0]} + Elements(order[1..k]);
      FanOutStopsAtPoison(lib, AllDelivered(lib, s, {order[0]}, f), order[1..], f, k - 1);
      DeliveredInTwoParts(lib, s, order[0], Elements(order[1..k]), f);
      hide Deliver, AllDelivered, Healthy;
    }
  }

  /** The channels visited before the first poisoned lock. */
  function Reached(s: Manager, order: seq<Id>): set<Id> {
    if order == [] || !Healthy(s, order[0]) then {} else {order[0]} + Reached(s, order[1..])
  }

  lemma {:induction false} ReachedIsAPrefix(s: Manager, order: seq<Id>) returns (k: nat)
    ensures k <= |order| && Reached(s, order) == Elements(order[..k])
    ensures forall i :: 0 <= i < k ==> Healthy(s, order[i])
    ensures k < |order| ==> !Healthy(s, order[k])
  {
    if order == [] || !Healthy(s, order[0]) {
      k := 0;
      assert Elements(order[..0]) == {};
    } else {
      var j := ReachedIsAPrefix(s, order[1..]);
      k := j + 1;
      assert order[..k][0] == order[0] && order[..k][1..] == order[1..][..j];
      assert Elements(order[..k]) == {order[0]} + Elements(order[1..][..j]);
      hide Healthy;
      forall i | 0 <= i < k ensures Healthy(s, order[i]) {
        if i > 0 { assert order[i] == order[1..][i - 1]; }
      }
    }
  }

  /** In every state, a fan-out asks all channels it reaches at once, and no other. */
  lemma FanOutDelivers(lib: Library, s: Manager, order: seq<Id>, f: Fanned)
    requires NoRepeats(order)
    ensures Routing.FanOut(lib, s, order, f).0 == AllDelivered(lib, s, Reached(s, order), f)
  {
    var k := ReachedIsAPrefix(s, order);
    if k < |order| {
      FanOutStopsAtPoison(lib, s, order, f, k);
    } else {
      assert order[..k] == order;
      FanOutIsPointwise(lib, s, order, f);
    }
    hide AllDelivered, Healthy;
  }

  /** The visits fail exactly if one of the channels has a poisoned lock. */
  lemma {:induction false} FanOutFailsExactly(lib: Library, s: Manager, order: seq<Id>, f: Fanned)
    requires NoRepeats(order)
    ensures Routing.FanOut(lib, s, order, f).1
            == if exists c :: c in Elements(order) && !Healthy(s, c) then Fatal(PoisonLock) else Continue
    decreases |order|
  {
    if order != [] {
      DeliverIsPointwise(lib, s, order[0], f);
      assert Elements(order) == {order[0]} + Elements(order[1..]);
      if Healthy(s, order[0]) {
        FanOutFailsExactly(lib, AllDelivered(lib, s, {order[0]}, f), order[1..], f);
      }
      hide Deliver, AllDelivered, Healthy;
    }
  }

  ghost predicate AllHealthy(s: Manager, ids: set<Id>) {
    forall c :: c in ids ==> Healthy(s, c)
  }

  /** The order in which members are visited does not matter, unless one of them is poisoned. */
  lemma FanOutIgnoresOrder(lib: Library, s: Manager, order: seq<Id>, order': seq<Id>, f: Fanned)
    requires NoRepeats(order) && NoRepeats(order') && Elements(order) == Elements(order')
    requires AllHealthy(s, Elements(order))
    ensures Routing.FanOut(lib, s, order, f) == Routing.FanOut(lib, s, order', f)
  {
    VisitedAreHealthy(s, order);
    VisitedAreHealthy(s, order');
    FanOutIsPointwise(lib, s, order, f);
    FanOutIsPointwise(lib, s, order', f);
  }

  lemma VisitedAreHealthy(s: Manager, order: seq<Id>)
    requires AllHealthy(s, Elements(order))
    ensures forall i :: 0 <= i < |order| ==> Healthy(s, order[i])
  {
    forall i | 0 <= i < |order| ensures Healthy(s, order[i]) {
      assert order[i] in Elements(order);
    }
  }

  /** The same request as messages of their own, one for each id. */
  function AddressedTo(f: Fanned, id: Id): Message {
    match f
    case FanPrevHash(p) => SetNewPrevHash(id, p)
    case FanTarget(t) => SetTarget(id, t)
    case FanJob(j) => NewExtendedJob(id, j)
  }

  /** One message for each listed channel, sent one after another. */
  function SendEach(cfg: Config, lib: Library, s: Manager, ids: seq<Id>, f: Fanned): Manager
    decreases |ids|
  {
    if ids == [] then s
    else SendEach(cfg, lib, HandleMessage(cfg, lib, s, AddressedTo(f, ids[0]), [ids[0]]).0, ids[1..], f)
  }

  lemma {:induction false} SendEachIsFanOut(cfg: Config, lib: Library, s: Manager, ids: seq<Id>, f: Fanned)
    requires AllHealthy(s, Elements(ids)) && !f.FanJob?
    ensures SendEach(cfg, lib, s, ids, f) == Routing.FanOut(lib, s, ids, f).0
    decreases |ids|
  {
    if ids != [] {
      var one := [ids[0]];
      assert one[1..] == [] && ids[0] in Elements(ids) && Elements(ids[1..]) <= Elements(ids);
      DeliverIsPointwise(lib, s, ids[0], f);
      var (s', o) := Deliver(lib, s, ids[0], f);
      hide Deliver, Healthy, AllDelivered;
      assert Routing.FanOut(lib, s', one[1..], f) == (s', Continue);
      assert Routing.FanOut(lib, s, one, f) == (s', Continue);
      assert HandleMessage(cfg, lib, s, AddressedTo(f, ids[0]), one) == Routing.FanOut(lib, s, one, f);
      SendEachIsFanOut(cfg, lib, s', ids[1..], f);
    }
  }

  /** A member's id names that member and nothing else. */
  lemma MemberAddressesItself(s: Manager, g: Id, f: Fanned, c: Id)
    requires IndexInv(s) && InGroup(s, g, c)
    ensures Visits(s, AddressedTo(f, c)) == {c}
  {
    assert c in OpenIds(s);
  }

  /** A SetNewPrevHash or SetTarget addressed to a group of sound members gives the state that the same
      message, addressed to each member separately, gives: for all orders on both sides. Each of those
      messages does reach its member alone. */
  lemma GroupMessageIsItsParts(
    cfg: Config, lib: Library, s: Manager, g: Id, f: Fanned, order: seq<Id>, parts: seq<Id>)
    requires IndexInv(s) && g in s.groups && AllHealthy(s, s.groups[g].members) && !f.FanJob?
    requires Enumerates(order, Visits(s, AddressedTo(f, g)))
    requires Enumerates(parts, s.groups[g].members)
    ensures HandleMessage(cfg, lib, s, AddressedTo(f, g), order) == (SendEach(cfg, lib, s, parts, f), Continue)
    ensures forall c :: c in parts ==> Visits(s, AddressedTo(f, c)) == {c}
  {
    assert NoRepeats(order) && NoRepeats(parts) && Elements(order) == Elements(parts);
    VisitedAreHealthy(s, order);
    hide Handle, Routing.FanOut, SendEach, AllHealthy, Healthy, IndexInv;
    FanOutIsPointwise(lib, s, order, f);
    FanOutIgnoresOrder(lib, s, order, parts, f);
    SendEachIsFanOut(cfg, lib, s, parts, f);
    forall c | c in parts ensures Visits(s, AddressedTo(f, c)) == {c} {
      assert c in Elements(parts);
      MemberAddressesItself(s, g, f, c);
    }
    assert HandleMessage(cfg, lib, s, AddressedTo(f, g), order) == Routing.FanOut(lib, s, order, f);
  }

  /** A fan-out changes the channels it reaches only; each one's state depends on nothing but its own
      state and the message. */
  lemma FanOutChangesExactlyTheReached(lib: Library, s: Manager, order: seq<Id>, f: Fanned, id: Id)
    requires NoRepeats(order)
    ensures var s' := Routing.FanOut(lib, s, order, f).0;
            var reached := id in Reached(s, order);
            && s'.groups == s.groups && s'.standard.Keys == s.standard.Keys && s'.extended.Keys == s.extended.Keys
            && (id in s.standard ==>
                  s'.standard[id]
                  == if reached then Handle(lib, s.standard[id], AskedOfStandard(f)).0 else s.standard[id])
            && (id in s.extended && id !in s.standard ==>
                  s'.extended[id]
                  == if reached then Handle(lib, s.extended[id], AskedOfExtended(f)).0 else s.extended[id])
  {
    FanOutDelivers(lib, s, order, f);
    hide Handle, Reached;
  }

  /** Unless it meets a poisoned lock, it reaches all the channels it is to visit. */
  lemma ReachesAllUnlessPoisoned(lib: Library, s: Manager, order: seq<Id>, f: Fanned)
    requires NoRepeats(order) && Routing.FanOut(lib, s, order, f).1.Continue?
    ensures Reached(s, order) == Elements(order)
  {
    FanOutFailsExactly(lib, s, order, f);
    var k := ReachedIsAPrefix(s, order);
    assert forall i :: 0 <= i < |order| ==> order[i] in Elements(order);
    assert order[..k] == order;
  }

  // ----- closing a group -----

  function CloseEach(s: Manager, ids: seq<Id>): Manager
    decreases |ids|
  {
    if ids == [] then s else CloseEach(Close(s, ids[0]), ids[1..])
  }

  /** Channels closed all at once. */
  function AllClosed(s: Manager, ids: set<Id>): Manager {
    Manager(s.standard - ids, s.extended - (ids - s.standard.Keys), NonEmpty(RemoveFromAll(s.groups, ids)))
  }

  lemma CloseChannelIsAllClosed(s: Manager, id: Id)
    requires id !in s.groups && IsOpen(s, id)
    ensures Close(s, id) == AllClosed(s, {id})
  {
    assert Addressed(s, id) * OpenIds(s) == {id};
  }

  lemma NonEmptyAfterRemovals(groups: map<Id, Group>, a: set<Id>, b: set<Id>)
    ensures NonEmpty(RemoveFromAll(NonEmpty(RemoveFromAll(groups, a)), b)) == NonEmpty(RemoveFromAll(groups, a + b))
  {
    RemoveTwice(groups, a, b);
    var once := RemoveFromAll(groups, a);
    var left := NonEmpty(RemoveFromAll(NonEmpty(once), b));
    var right := NonEmpty(RemoveFromAll(once, b));
    forall g ensures g in left <==> g in right {
      if g in right { assert once[g].members != {}; }
    }
    assert left == right;
  }

  lemma ClosedInTwoParts(s: Manager, id: Id, rest: set<Id>)
    requires id !in rest
    ensures AllClosed(AllClosed(s, {id}), rest) == AllClosed(s, {id} + rest)
  {
    NonEmptyAfterRemovals(s.groups, {id}, rest);
    var t := AllClosed(s, {id});
    assert t.standard - rest == s.standard - ({id} + rest);
    assert t.extended - (rest - t.standard.Keys) == s.extended - (({id} + rest) - s.standard.Keys);
  }

  lemma {:induction false} CloseEachIsAllClosed(s: Manager, ids: seq<Id>)
    requires IndexInv(s) && NoRepeats(ids) && Elements(ids) <= OpenIds(s)
    ensures CloseEach(s, ids) == AllClosed(s, Elements(ids))
    decreases |ids|
  {
    if ids == [] {
      assert Elements(ids) == {};
      RemoveNone(s.groups);
      NonEmptyOfNonEmpty(s.groups);
      assert s.standard - {} == s.standard && s.extended - ({} - s.standard.Keys) == s.extended;
    } else {
      assert ids[0] in Elements(ids);
      CloseChannelIsAllClosed(s, ids[0]);
      CloseKeepsIndex(s, ids[0]);
      assert Elements(ids) == {ids[0]} + Elements(ids[1..]);
      assert Elements(ids[1..]) <= OpenIds(AllClosed(s, {ids[0]}));
      CloseEachIsAllClosed(AllClosed(s, {ids[0]}), ids[1..]);
      ClosedInTwoParts(s, ids[0], Elements(ids[1..]));
    }
  }

  /** Closing a group gives the state that closing each member separately gives, in any order. */
  lemma CloseGroupIsItsParts(s: Manager, g: Id, parts: seq<Id>)
    requires IndexInv(s) && g in s.groups && Enumerates(parts, s.groups[g].members)
    ensures Close(s, g) == CloseEach(s, parts)
  {
    CloseEachIsAllClosed(s, parts);
    assert Addressed(s, g) * OpenIds(s) == s.groups[g].members;
  }
}
