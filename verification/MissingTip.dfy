// When the snapshot at a task's start panics. It expects a chain tip, and a job may arrive active
// before any SetNewPrevHash was accepted: whether some task may panic is decided by the order of the
// messages alone.
module MissingTip {
  import opened Wrappers
  import opened ClientChannels
  import opened MiningTasks
  import opened SnapshotCoherence
  import opened Witnesses

  // ----- interleavings of a sequence of handler calls -----

  /** The labels of these handler calls, one call after another. */
  function Calls(rs: seq<Request>): seq<Label> {
    if rs == [] then [] else CallLabels(rs[0]) + Calls(rs[1..])
  }

  function HandlerPart(ls: seq<Label>): seq<Label> {
    if ls == [] then []
    else (if ls[0].Write? || ls[0].Revoke? || ls[0].Respawn? then [ls[0]] else []) + HandlerPart(ls[1..])
  }

  /** Exactly these handler calls, in this order, with any other steps anywhere in between. */
  ghost predicate Interleaves(ls: seq<Label>, rs: seq<Request>) {
    HandlerPart(ls) == Calls(rs)
  }

  /** The requests written, in order. */
  function Requests(ls: seq<Label>): seq<Request> {
    if ls == [] then [] else (if ls[0].Write? then [ls[0].request] else []) + Requests(ls[1..])
  }

  lemma {:induction false} HandlerPartConcat(a: seq<Label>, b: seq<Label>)
    ensures HandlerPart(a + b) == HandlerPart(a) + HandlerPart(b)
    ensures Requests(a + b) == Requests(a) + Requests(b)
  {
    if a == [] {
      assert a + b == b;
    } else {
      assert (a + b)[0] == a[0] && (a + b)[1..] == a[1..] + b;
      HandlerPartConcat(a[1..], b);
    }
  }

  lemma PartsOfOneCall(r: Request)
    ensures HandlerPart(CallLabels(r)) == CallLabels(r) && Requests(CallLabels(r)) == [r]
  {
    var ls := CallLabels(r);
    assert ls[1..] == [Revoke, Respawn] && ls[1..][1..] == [Respawn] && ls[1..][1..][1..] == [];
    assert HandlerPart([Respawn]) == [Respawn] + HandlerPart([]);
    assert HandlerPart([Revoke, Respawn]) == [Revoke] + HandlerPart([Respawn]);
    assert Requests([Respawn]) == Requests([]) && Requests([Revoke, Respawn]) == Requests([Respawn]);
  }

  lemma {:induction false} PartsOfCalls(rs: seq<Request>)
    ensures HandlerPart(Calls(rs)) == Calls(rs) && Requests(Calls(rs)) == rs
  {
    if rs != [] {
      PartsOfOneCall(rs[0]);
      PartsOfCalls(rs[1..]);
      HandlerPartConcat(CallLabels(rs[0]), Calls(rs[1..]));
    }
  }

  lemma {:induction false} RequestsOfHandlerPart(ls: seq<Label>)
    ensures Requests(HandlerPart(ls)) == Requests(ls)
  {
    if ls != [] {
      RequestsOfHandlerPart(ls[1..]);
      var first := if ls[0].Write? || ls[0].Revoke? || ls[0].Respawn? then [ls[0]] else [];
      HandlerPartConcat(first, HandlerPart(ls[1..]));
      assert first != [] ==> first[1..] == [] && Requests(first) == if ls[0].Write? then [ls[0].request] else [];
    }
  }

  // ----- the message order -----

  /** Among these requests to a channel, one that is accepted makes a job active while no chain tip is
      known. */
  predicate JobBeforeTip(lib: Library, c: Channel, rs: seq<Request>)
    decreases |rs|
  {
    rs != [] &&
    match Apply(lib, c, rs[0])
    case None => JobBeforeTip(lib, c, rs[1..])
    case Some(c') => (Activates(rs[0]) && c'.tip.None?) || JobBeforeTip(lib, c', rs[1..])
  }

  /** Before the tip is known there is no task; afterwards every task finds what it expects. */
  ghost predicate Safe(lib: Library, m: Miner, rs: seq<Request>) {
    && NoPanic(m)
    && (if m.channel.tip.Some? then JobBeforeTask(m)
        else m.tasks == [] && m.handler.Idle? && (m.poisoned || !JobBeforeTip(lib, m.channel, rs)))
  }

  lemma StepStaysSafe(lib: Library, m: Miner, l: Label, rs: seq<Request>)
    requires Safe(lib, m, Requests([l]) + rs)
    ensures Safe(lib, Step(lib, m, l), rs)
  {
    assert l.Take? && l.task >= |m.tasks| ==> Step(lib, m, l) == m;
    hide ActStep, Apply;
    assert [l][1..] == [] && Requests([l]) == if l.Write? then [l.request] else [];
    match l {
      case Write(r) =>
        assert ([r] + rs)[1..] == rs;
        ApplyFrame(lib, m.channel, r);
      case Take(t, a) =>
        ActFrame(lib, m, t, a);
        if t < |m.tasks| { ActDoesNotPanic(lib, m, t, a); }
        assert [] + rs == rs;
      case _ => assert [] + rs == rs;
    }
  }

  lemma {:induction false} RunStaysSafe(lib: Library, m: Miner, ls: seq<Label>)
    requires Safe(lib, m, Requests(ls))
    ensures NoPanic(Run(lib, m, ls))
    decreases |ls|
  {
    if ls != [] {
      HandlerPartConcat([ls[0]], ls[1..]);
      assert [ls[0]] + ls[1..] == ls;
      StepStaysSafe(lib, m, ls[0], Requests(ls[1..]));
      RunStaysSafe(lib, Step(lib, m, ls[0]), ls[1..]);
    }
  }

  lemma {:induction false} PanicsLast(lib: Library, m: Miner, ls: seq<Label>)
    requires !NoPanic(m)
    ensures !NoPanic(Run(lib, m, ls))
    decreases |ls|
  {
    if ls != [] {
      var t :| 0 <= t < |m.tasks| && m.tasks[t].phase.Panicked?;
      var n := Step(lib, m, ls[0]);
      assert t < |n.tasks| && n.tasks[t].phase.Panicked? by {
        hide Apply;
        if ls[0].Take? && ls[0].task != t {
          ActFrame(lib, m, ls[0].task, ls[0].act);
          hide ActStep;
        }
      }
      hide Step;
      PanicsLast(lib, n, ls[1..]);
    }
  }

  function FirstSteps(t: nat): seq<Label> {
    [Take(t, Enter), Take(t, Load)]
  }

  /** The task spawned for a job that is active before the tip is known panics at its snapshot. */
  lemma NewTaskPanics(lib: Library, m: Miner, r: Request)
    requires !m.poisoned && m.single != Some(true) && Activates(r)
    requires Apply(lib, m.channel, r).Some? && Apply(lib, m.channel, r).value.tip.None?
    ensures !NoPanic(Run(lib, Handle(lib, m, r).0, FirstSteps(|m.tasks|)))
  {
    hide Apply;
    var t := |m.tasks|;
    var m1 := Handle(lib, m, r).0;
    assert m1.tasks[t].phase.Spawned? && m1.channel.tip.None?;
    hide Handle;
    var m2 := EnterStep(m1, t);
    assert m2 == Step(lib, m1, Take(t, Enter)) && m2.tasks[t].phase.Entered?;
    var m3 := LoadStep(m2, t);
    assert m3 == Step(lib, m2, Take(t, Load)) && m3.tasks[t].phase.Panicked?;
    hide Step;
    var ls := FirstSteps(t);
    assert ls[1..] == [Take(t, Load)] && ls[1..][1..] == [];
    assert Run(lib, m3, []) == m3 && Run(lib, m2, ls[1..]) == m3;
  }

  lemma FirstStepsAreNoCall(t: nat)
    ensures HandlerPart(FirstSteps(t)) == []
  {
    var ls := FirstSteps(t);
    assert ls[1..] == [Take(t, Load)] && ls[1..][1..] == [];
    assert HandlerPart(ls[1..]) == [] + HandlerPart([]);
  }

  /** A schedule of these calls in which a task panics. */
  lemma {:induction false} PanicSchedule(lib: Library, m: Miner, rs: seq<Request>) returns (ls: seq<Label>)
    requires m.handler.Idle? && !m.poisoned && m.single != Some(true) && JobBeforeTip(lib, m.channel, rs)
    ensures Interleaves(ls, rs) && !NoPanic(Run(lib, m, ls))
    decreases |rs|
  {
    var call, rest := CallLabels(rs[0]), rs[1..];
    var m1 := Handle(lib, m, rs[0]).0;
    HandleIsUninterruptedCall(lib, m, rs[0]);
    PartsOfOneCall(rs[0]);
    var o := Apply(lib, m.channel, rs[0]);
    if o.Some? && Activates(rs[0]) && o.value.tip.None? {
      var first := FirstSteps(|m.tasks|);
      NewTaskPanics(lib, m, rs[0]);
      hide Run, Apply, Handle, HandlerPart, CallLabels, FirstSteps, NoPanic;
      PanicsLast(lib, Run(lib, m1, first), Calls(rest));
      ls := call + first + Calls(rest);
      RunConcat(lib, m, call + first, Calls(rest));
      RunConcat(lib, m, call, first);
      HandlerPartConcat(call + first, Calls(rest));
      HandlerPartConcat(call, first);
      PartsOfCalls(rest);
      FirstStepsAreNoCall(|m.tasks|);
      assert call + [] == call;
    } else {
      assert JobBeforeTip(lib, m1.channel, rest) && !m1.poisoned && m1.single == m.single;
      hide Run, Apply, Handle, HandlerPart, CallLabels, NoPanic, JobBeforeTip;
      var tail := PanicSchedule(lib, m1, rest);
      ls := call + tail;
      RunConcat(lib, m, call, tail);
      HandlerPartConcat(call, tail);
    }
  }

  /** For every sequence of handler calls: some interleaving with the tasks they spawn makes a task
      panic at its snapshot exactly when one of the calls, applied in turn to the channel, is accepted
      and makes a job active while no chain tip is known. */
  lemma PanicsExactlyWhenAJobPrecedesTheTip(lib: Library, c: Channel, single: bool, rs: seq<Request>)
    ensures (exists ls :: Interleaves(ls, rs) && !NoPanic(Run(lib, NewMiner(c, single), ls)))
            <==> JobBeforeTip(lib, c, rs)
  {
    var m := NewMiner(c, single);
    if JobBeforeTip(lib, c, rs) {
      var ls := PanicSchedule(lib, m, rs);
      assert Interleaves(ls, rs) && !NoPanic(Run(lib, m, ls));
    } else {
      forall ls | Interleaves(ls, rs) ensures NoPanic(Run(lib, m, ls)) {
        RequestsOfHandlerPart(ls);
        PartsOfCalls(rs);
        RunStaysSafe(lib, m, ls);
      }
    }
  }

  /** Reachable: a job that arrives active on a channel just opened. */
  lemma FirstJobCanPanic()
    ensures exists lib: Library, c: Channel, ls: seq<Label> ::
              c == NewChannel(c.id, c.kind, c.prefix, c.target) && !NoPanic(Run(lib, NewMiner(c, false), ls))
  {
    var r := NewJob(JobMessage(2, Some(7), 0));
    var rs := [r];
    assert JobBeforeTip(AGREEABLE, OPENED, rs);
    var ls := PanicSchedule(AGREEABLE, NewMiner(OPENED, false), rs);
    assert !NoPanic(Run(AGREEABLE, NewMiner(OPENED, false), ls));
    assert OPENED == NewChannel(OPENED.id, OPENED.kind, OPENED.prefix, OPENED.target);
  }
}
