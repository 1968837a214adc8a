// What reaches the upstream queue, in either mode: exactly the shares whose task sent them while it
// held them; and a share the channel accepts is held until then.
module Upstream {
  import opened ClientChannels
  import opened MiningTasks
  import opened ChannelHistory

  /** The label is a send that the queue takes, by a task that holds a share. */
  predicate SendsShare(m: Miner, l: Label) {
    l.Take? && l.act == Send(true) && l.task < |m.tasks| && m.tasks[l.task].phase.Submitting?
  }

  /** The shares sent in a run, in order, each with its task. */
  function SentShares(lib: Library, m0: Miner, ls: seq<Label>): seq<Submission> {
    if ls == [] then []
    else
      var m, l, earlier := Before(lib, m0, ls), Last(ls), SentShares(lib, m0, ls[..|ls| - 1]);
      if SendsShare(m, l) then earlier + [Submission(l.task, m.tasks[l.task].phase.share)] else earlier
  }

  lemma OnlySendsQueue(lib: Library, m: Miner, l: Label)
    ensures Step(lib, m, l).upstream
            == m.upstream + if SendsShare(m, l) then [Submission(l.task, m.tasks[l.task].phase.share)] else []
  {
    hide Apply, NtimeNow, NextShare, Validated;
  }

  /** In every run of a miner, in single-submit mode or not, the queue is exactly those shares. */
  lemma {:induction false} QueueIsWhatWasSent(lib: Library, c: Channel, single: bool, ls: seq<Label>)
    ensures Run(lib, NewMiner(c, single), ls).upstream == SentShares(lib, NewMiner(c, single), ls)
    decreases |ls|
  {
    if ls != [] {
      QueueIsWhatWasSent(lib, c, single, ls[..|ls| - 1]);
      RunOneMore(lib, NewMiner(c, single), ls);
      OnlySendsQueue(lib, Before(lib, NewMiner(c, single), ls), Last(ls));
      hide Step;
    }
  }

  // ----- a validated share is held until it is sent, or the queue refuses it -----

  predicate SendsOrDrops(l: Label, t: nat) {
    l.Take? && l.task == t && l.act.Send?
  }

  lemma StepKeepsHeld(lib: Library, m: Miner, l: Label, t: nat)
    requires t < |m.tasks| && m.tasks[t].phase.Submitting? && !SendsOrDrops(l, t)
    ensures var n := Step(lib, m, l); t < |n.tasks| && n.tasks[t] == m.tasks[t]
  {
    hide Apply;
    if l.Take? {
      ActFrame(lib, m, l.task, l.act);
      if l.task != t { hide ActStep; }
    }
  }

  /** A task that holds a share does nothing but send it. */
  lemma {:induction false} SharesAreHeld(lib: Library, m: Miner, ls: seq<Label>, t: nat)
    requires t < |m.tasks| && m.tasks[t].phase.Submitting?
    requires forall p :: 0 <= p < |ls| ==> !SendsOrDrops(ls[p], t)
    ensures var n := Run(lib, m, ls); t < |n.tasks| && n.tasks[t] == m.tasks[t]
    decreases |ls|
  {
    if ls != [] {
      StepKeepsHeld(lib, m, ls[0], t);
      SharesAreHeld(lib, Step(lib, m, ls[0]), ls[1..], t);
    }
  }

  /** Task t held share s in this state when the label had it send it. */
  predicate Offered(m: Miner, l: Label, t: nat, s: Share) {
    SendsOrDrops(l, t) && t < |m.tasks| && m.tasks[t].phase == Submitting(s)
  }

  /** The share is still held, or has been offered to the queue at some step of the run. */
  ghost predicate HeldOrOffered(lib: Library, m0: Miner, ls: seq<Label>, t: nat, s: Share) {
    var m := Run(lib, m0, ls);
    || (t < |m.tasks| && m.tasks[t].phase == Submitting(s))
    || exists p :: 0 <= p < |ls| && Offered(Run(lib, m0, ls[..p]), ls[p], t, s)
  }

  lemma HeldOrOfferedStays(lib: Library, m0: Miner, ls: seq<Label>, t: nat, s: Share)
    requires ls != [] && HeldOrOffered(lib, m0, ls[..|ls| - 1], t, s)
    ensures HeldOrOffered(lib, m0, ls, t, s)
  {
    var n := |ls| - 1;
    var m := Before(lib, m0, ls);
    RunOneMore(lib, m0, ls);
    if t < |m.tasks| && m.tasks[t].phase == Submitting(s) {
      if SendsOrDrops(ls[n], t) {
        assert Offered(Run(lib, m0, ls[..n]), ls[n], t, s);
      } else {
        StepKeepsHeld(lib, m, ls[n], t);
      }
    } else {
      var p :| 0 <= p < n && Offered(Run(lib, m0, ls[..n][..p]), ls[..n][p], t, s);
      assert ls[..n][..p] == ls[..p];
    }
    hide Step, Run;
  }

  /** A step books at most one share, which its task then holds. */
  lemma BookedIsHeld(lib: Library, m: Miner, l: Label)
    requires |m.validators| == |m.channel.accounting.validated|
    ensures var n := Step(lib, m, l);
            var a, b := m.channel.accounting.validated, n.channel.accounting.validated;
            || (b == a && n.validators == m.validators)
            || (exists t: nat, s :: b == a + [s] && n.validators == m.validators + [t]
                               && t < |n.tasks| && n.tasks[t].phase == Submitting(s))
  {
    match l {
      case Write(r) =>
        ApplyFrame(lib, m.channel, r);
        hide Apply;
      case Take(t, a) =>
        if a.Validate? && t < |m.tasks| && m.tasks[t].phase.Found? && !m.poisoned && m.tasks[t].snap.Some? {
          var s := NextShare(m.channel, m.tasks[t].snap.value.job.job.id, m.tasks[t].nonce, m.tasks[t].phase.ntime);
          if lib.validates(m.channel, s) {
            var n := Step(lib, m, l);
            assert n.tasks[t].phase == Submitting(s) && n.validators == m.validators + [t];
          }
          hide NextShare;
        }
        hide NtimeNow;
      case _ =>
    }
  }

  /** In every run, every share the channel has accepted is held by the task that built it, or was
      offered to the queue: none is lost on the way. With `QueueIsWhatWasSent`, each accepted share is
      held, on the queue, or refused by the queue. */
  lemma {:induction false} AcceptedSharesAreOffered(lib: Library, c: Channel, single: bool, ls: seq<Label>, i: nat)
    requires c.accounting.validated == []
    requires i < |Run(lib, NewMiner(c, single), ls).channel.accounting.validated|
    ensures var m := Run(lib, NewMiner(c, single), ls);
            && |m.validators| == |m.channel.accounting.validated|
            && HeldOrOffered(lib, NewMiner(c, single), ls, m.validators[i], m.channel.accounting.validated[i])
    decreases |ls|
  {
    var m0 := NewMiner(c, single);
    var m := Before(lib, m0, ls);
    var n := Run(lib, m0, ls);
    RunOneMore(lib, m0, ls);
    EveryShareHasAValidator(lib, c, single, ls[..|ls| - 1]);
    BookedIsHeld(lib, m, Last(ls));
    hide Step, Run;
    if i < |m.channel.accounting.validated| {
      AcceptedSharesAreOffered(lib, c, single, ls[..|ls| - 1], i);
      HeldOrOfferedStays(lib, m0, ls, m.validators[i], m.channel.accounting.validated[i]);
      hide HeldOrOffered;
    }
  }

  lemma {:induction false} EveryShareHasAValidator(lib: Library, c: Channel, single: bool, ls: seq<Label>)
    requires c.accounting.validated == []
    ensures var m := Run(lib, NewMiner(c, single), ls); |m.validators| == |m.channel.accounting.validated|
    decreases |ls|
  {
    if ls != [] {
      EveryShareHasAValidator(lib, c, single, ls[..|ls| - 1]);
      RunOneMore(lib, NewMiner(c, single), ls);
      BookedIsHeld(lib, Before(lib, NewMiner(c, single), ls), Last(ls));
      hide Step;
    }
  }
}
