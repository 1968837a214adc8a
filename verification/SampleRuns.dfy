// Short runs of a manager that starts empty, for results that say something can happen.
module SampleRuns {
  import opened Wrappers
  import opened ClientChannels
  import opened MiningTasks
  import opened Routing
  import opened GroupIndex
  import opened Projection
  import Witnesses

  lemma ThreeEvents(
    cfg: Config, lib: Library, e0: Event, e1: Event, e2: Event, s1: Manager, s2: Manager, s3: Manager)
    requires Next(cfg, lib, NO_CHANNELS, e0) == (s1, Continue) && Next(cfg, lib, s1, e1) == (s2, Continue)
    requires Next(cfg, lib, s2, e2).0 == s3
    requires SoundEvent(NO_CHANNELS, e0) && SoundEvent(s1, e1) && SoundEvent(s2, e2)
    ensures RunEvents(cfg, lib, NO_CHANNELS, [e0, e1, e2]) == s3 && SoundRun(cfg, lib, NO_CHANNELS, [e0, e1, e2])
  {
    hide Next, SoundEvent;
    var es := [e0, e1, e2];
    assert es[1..] == [e1, e2] && es[1..][1..] == [e2] && es[1..][1..][1..] == [];
    assert RunEvents(cfg, lib, s3, []) == s3 && SoundRun(cfg, lib, s3, []);
    assert RunEvents(cfg, lib, s2, [e2]) == s3 && SoundRun(cfg, lib, s2, [e2]);
    assert RunEvents(cfg, lib, s1, [e1, e2]) == s3 && SoundRun(cfg, lib, s1, [e1, e2]);
  }

  const SAMPLE := Config(false, false)

  function SampleOpened(s: Manager, id: Id): Manager {
    Open(SAMPLE, Witnesses.AGREEABLE, s, id, 1, Standard, [], 0)
  }

  function SampleOpen(id: Id): Event {
    Receive(OpenStandard(id, 1, [], 0), [])
  }

  /** Opens one more channel of an empty prefix in group 1. */
  lemma SampleOpens(s: Manager, id: Id)
    requires SoundState(s) && id > 1 && !IsOpen(s, id) && !IsOpen(s, 1) && id !in s.groups
    requires GroupToJoin(s, 1).size in {None, Some(0)}
    ensures var s' := SampleOpened(s, id);
            && Next(SAMPLE, Witnesses.AGREEABLE, s, SampleOpen(id)) == (s', Continue)
            && SoundEvent(s, SampleOpen(id)) && SoundState(s') && OpenIds(s') == OpenIds(s) + {id}
            && s'.groups.Keys == s.groups.Keys + {1} && s'.groups[1].size == Some(0) && InGroup(s', 1, id)
            && Local(s', id) == Some(NewMiner(NewChannel(id, Standard, [], 0), false))
            && (forall c :: InGroup(s, 1, c) ==> InGroup(s', 1, c))
            && (forall c :: c != id ==> Local(s', c) == Local(s, c))
  {
    var lib := Witnesses.AGREEABLE;
    assert OpenAccepted(lib, s, id, 1, Standard, [], 0);
    assert Elements([]) == {};
    OpenChanges(SAMPLE, lib, s, id, 1, Standard, [], 0);
    NextKeepsSound(SAMPLE, lib, s, SampleOpen(id));
    assert SampleOpened(s, id).groups == s.groups[1 := AddMember(GroupToJoin(s, 1), id, 0).value];
    forall c { OpenProjects(SAMPLE, lib, s, c, id, 1, Standard, [], 0); }
    hide Open, SoundState, NewMiner, NewChannel;
  }

  const ONE_OPEN := SampleOpened(NO_CHANNELS, 2)
  const TWO_OPEN := SampleOpened(ONE_OPEN, 3)

  /** Two standard channels in one group, then one more event. */
  lemma AfterTwoOpens(e: Event)
    requires SoundEvent(TWO_OPEN, e)
    ensures var es := [SampleOpen(2), SampleOpen(3), e];
            && RunEvents(SAMPLE, Witnesses.AGREEABLE, NO_CHANNELS, es)
               == Next(SAMPLE, Witnesses.AGREEABLE, TWO_OPEN, e).0
            && SoundRun(SAMPLE, Witnesses.AGREEABLE, NO_CHANNELS, es)
  {
    TwoOpens();
    hide Next, SoundEvent, SampleOpened;
    ThreeEvents(SAMPLE, Witnesses.AGREEABLE, SampleOpen(2), SampleOpen(3), e, ONE_OPEN, TWO_OPEN,
                Next(SAMPLE, Witnesses.AGREEABLE, TWO_OPEN, e).0);
  }

  lemma TwoOpens()
    ensures Next(SAMPLE, Witnesses.AGREEABLE, NO_CHANNELS, SampleOpen(2)) == (ONE_OPEN, Continue)
    ensures Next(SAMPLE, Witnesses.AGREEABLE, ONE_OPEN, SampleOpen(3)) == (TWO_OPEN, Continue)
    ensures SoundEvent(NO_CHANNELS, SampleOpen(2)) && SoundEvent(ONE_OPEN, SampleOpen(3)) && SoundState(TWO_OPEN)
    ensures InGroup(TWO_OPEN, 1, 2) && InGroup(TWO_OPEN, 1, 3) && OpenIds(TWO_OPEN) == {2, 3}
    ensures forall g, c :: InGroup(TWO_OPEN, g, c) ==> g == 1
    ensures SizeOf(TWO_OPEN, 2) == Size(0) && SizeOf(TWO_OPEN, 3) == Size(0)
    ensures forall id :: id in {2, 3} ==> Local(TWO_OPEN, id) == Some(NewMiner(NewChannel(id, Standard, [], 0), false))
  {
    assert OpenIds(NO_CHANNELS) == {};
    SampleOpens(NO_CHANNELS, 2);
    assert OpenIds(ONE_OPEN) == {2} && ONE_OPEN.groups.Keys == {1};
    assert !IsOpen(ONE_OPEN, 3) by { assert 3 !in OpenIds(ONE_OPEN); }
    assert !IsOpen(ONE_OPEN, 1) by { assert 1 !in OpenIds(ONE_OPEN); }
    SampleOpens(ONE_OPEN, 3);
    hide SampleOpened, NewMiner, NewChannel, Next, SoundEvent, SoundState, Local;
  }
}
