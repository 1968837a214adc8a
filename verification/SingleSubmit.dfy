// How many shares a miner in single-submit mode sends. The token is tested once, when a task
// starts, so tasks already past that test may each still send one share.
module SingleSubmit {
  import opened Wrappers
  import opened ClientChannels
  import opened MiningTasks

  predicate InFlight(p: Phase) {
    p.Entered? || p.Loaded? || p.Looping? || p.Armed? || p.Found? || p.Submitting?
  }

  function PassedTasks(m: Miner): set<nat> {
    set t | 0 <= t < |m.tasks| && m.tasks[t].passed
  }

  function Senders(m: Miner): set<nat> {
    set j | 0 <= j < |m.upstream| :: m.upstream[j].task
  }

  predicate HasSent(p: Phase) {
    p.Sent? || p.Done?
  }

  ghost predicate Inv(m: Miner) {
    && m.single.Some?
    && (forall t :: 0 <= t < |m.tasks| && !m.tasks[t].passed ==> !InFlight(m.tasks[t].phase) && !m.tasks[t].phase.Sent?)
    && (forall j :: 0 <= j < |m.upstream| ==>
          var t := m.upstream[j].task; t < |m.tasks| && m.tasks[t].passed && HasSent(m.tasks[t].phase))
    && (forall i, j :: 0 <= i < j < |m.upstream| ==> m.upstream[i].task != m.upstream[j].task)
  }

  /** One task's step in single-submit mode: the ways its phase, the queue and the token can move. */
  ghost predicate TaskMoves(m: Miner, n: Miner, t: nat)
    requires t < |m.tasks| && t < |n.tasks|
  {
    var k, k' := m.tasks[t], n.tasks[t];
    && n.single.Some? && (k.passed ==> k'.passed)
    && (HasSent(k.phase) ==> HasSent(k'.phase))
    && (InFlight(k'.phase) || k'.phase.Sent? ==> k'.passed || InFlight(k.phase) || k.phase.Sent?)
    && (n.upstream == m.upstream
        || (k.phase.Submitting? && k'.phase.Sent? && n.upstream == m.upstream + [Submission(t, k.phase.share)]))
    && (m.single == Some(true) ==>
          n.single == m.single && k'.passed == k.passed && (InFlight(k'.phase) ==> InFlight(k.phase)))
  }

  lemma ActMoves(lib: Library, m: Miner, t: nat, a: Act)
    requires t < |m.tasks| && m.single.Some?
    ensures var n := ActStep(lib, m, t, a); |n.tasks| == |m.tasks| && TaskMoves(m, n, t)
  {
    hide NtimeNow, NextShare, Validated;
  }

  lemma StepKeepsInv(lib: Library, m: Miner, l: Label)
    requires Inv(m)
    ensures Inv(Step(lib, m, l))
  {
    hide Apply;
    match l {
      case Take(t, a) =>
        ActFrame(lib, m, t, a);
        if t < |m.tasks| { ActMoves(lib, m, t, a); }
        hide ActStep;
      case _ =>
    }
  }

  lemma {:induction false} RunKeepsInv(lib: Library, m: Miner, ls: seq<Label>)
    requires Inv(m)
    ensures Inv(Run(lib, m, ls))
    decreases |ls|
  {
    if ls != [] {
      StepKeepsInv(lib, m, ls[0]);
      RunKeepsInv(lib, Step(lib, m, ls[0]), ls[1..]);
    }
  }

  // ----- counting -----

  lemma {:induction false} DistinctSendersCount(m: Miner, n: nat)
    requires n <= |m.upstream|
    requires forall i, j :: 0 <= i < j < |m.upstream| ==> m.upstream[i].task != m.upstream[j].task
    ensures |set j | 0 <= j < n :: m.upstream[j].task| == n
  {
    var s := set j | 0 <= j < n :: m.upstream[j].task;
    if n == 0 {
      assert s == {};
    } else {
      DistinctSendersCount(m, n - 1);
      var r := set j | 0 <= j < n - 1 :: m.upstream[j].task;
      assert s == r + {m.upstream[n - 1].task};
      assert m.upstream[n - 1].task !in r;
    }
  }

  lemma SubsetCount(a: set<nat>, b: set<nat>)
    requires a <= b
    ensures |a| <= |b|
  {
    assert b == a + (b - a);
  }

  lemma SentAtMostPassed(m: Miner)
    requires Inv(m)
    ensures |m.upstream| <= |PassedTasks(m)|
  {
    DistinctSendersCount(m, |m.upstream|);
    assert Senders(m) <= PassedTasks(m);
    SubsetCount(Senders(m), PassedTasks(m));
  }

  lemma StepFreezesPassed(lib: Library, m: Miner, l: Label)
    requires Inv(m) && m.single == Some(true)
    ensures Step(lib, m, l).single == Some(true) && PassedTasks(Step(lib, m, l)) == PassedTasks(m)
  {
    hide Apply;
    match l {
      case Take(t, a) =>
        ActFrame(lib, m, t, a);
        if t < |m.tasks| { ActMoves(lib, m, t, a); }
        hide ActStep;
      case _ =>
    }
  }

  lemma {:induction false} RunFreezesPassed(lib: Library, m: Miner, ls: seq<Label>)
    requires Inv(m) && m.single == Some(true)
    ensures Run(lib, m, ls).single == Some(true) && PassedTasks(Run(lib, m, ls)) == PassedTasks(m)
    decreases |ls|
  {
    if ls != [] {
      StepFreezesPassed(lib, m, ls[0]);
      StepKeepsInv(lib, m, ls[0]);
      RunFreezesPassed(lib, Step(lib, m, ls[0]), ls[1..]);
    }
  }

  /** In every interleaving each task sends at most one share, and the total never exceeds the
      number of tasks that were past the test when the token was cancelled. */
  lemma SentAtMostThoseAdmitted(lib: Library, c: Channel, before: seq<Label>, after: seq<Label>)
    requires Run(lib, NewMiner(c, true), before).single == Some(true)
    ensures var m := Run(lib, NewMiner(c, true), before);
            var n := Run(lib, NewMiner(c, true), before + after);
            && |n.upstream| <= |PassedTasks(m)|
            && (forall i, j :: 0 <= i < j < |n.upstream| ==> n.upstream[i].task != n.upstream[j].task)
            && (forall j :: 0 <= j < |n.upstream| ==> n.upstream[j].task in PassedTasks(m))
  {
    var m := Run(lib, NewMiner(c, true), before);
    RunConcat(lib, NewMiner(c, true), before, after);
    RunKeepsInv(lib, NewMiner(c, true), before);
    RunFreezesPassed(lib, m, after);
    RunKeepsInv(lib, m, after);
    SentAtMostPassed(Run(lib, m, after));
  }
}
