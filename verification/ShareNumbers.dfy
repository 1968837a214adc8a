// Sequence numbers across overlapping tasks of one miner, old and new.
module ShareNumbers {
  import opened ClientChannels
  import opened MiningTasks

  predicate Holds(p: Phase) {
    p.Submitting? || p.Sent?
  }

  /** Task t validated share s, and it has the number under which the channel accepted it. */
  predicate ValidatedBy(m: Miner, t: nat, s: Share) {
    && 1 <= s.sequence <= |m.validators| == |m.channel.accounting.validated|
    && m.validators[s.sequence - 1] == t
    && m.channel.accounting.validated[s.sequence - 1] == s
  }

  /** The n-th share the channel accepts has number n. */
  ghost predicate NumbersAreConsecutive(m: Miner) {
    var a := m.channel.accounting;
    && a.lastSequence == |a.validated| == |m.validators|
    && (forall i :: 0 <= i < |a.validated| ==> a.validated[i].sequence == i + 1)
  }

  /** The task's queue entries are in the order of their numbers, all before the share it holds. */
  ghost predicate QueueInOrder(m: Miner) {
    && (forall j :: 0 <= j < |m.upstream| ==>
          m.upstream[j].task < |m.tasks| && ValidatedBy(m, m.upstream[j].task, m.upstream[j].share))
    && (forall i, j :: 0 <= i < j < |m.upstream| && m.upstream[i].task == m.upstream[j].task ==>
          m.upstream[i].share.sequence < m.upstream[j].share.sequence)
  }

  ghost predicate HeldShares(m: Miner) {
    && (forall t :: 0 <= t < |m.tasks| && Holds(m.tasks[t].phase) ==> ValidatedBy(m, t, m.tasks[t].phase.share))
    && (forall t, j :: 0 <= t < |m.tasks| && 0 <= j < |m.upstream| ==>
          m.tasks[t].phase.Submitting? && m.upstream[j].task == t ==>
          m.upstream[j].share.sequence < m.tasks[t].phase.share.sequence)
  }

  ghost predicate Inv(m: Miner) {
    NumbersAreConsecutive(m) && QueueInOrder(m) && HeldShares(m)
  }

  lemma ValidateKeepsInv(lib: Library, m: Miner, t: nat)
    requires Inv(m) && t < |m.tasks| && m.tasks[t].phase.Found?
    ensures Inv(ValidateStep(lib, m, t))
  {
    var n := ValidateStep(lib, m, t);
    ValidateFrame(lib, m, t);
    forall i, s | ValidatedBy(m, i, s) ensures ValidatedBy(n, i, s) {
    }
    assert m.upstream == n.upstream;
    assert Holds(n.tasks[t].phase) ==> ValidatedBy(n, t, n.tasks[t].phase.share);
    assert NumbersAreConsecutive(n);
    hide ValidateStep, ValidatedBy, NumbersAreConsecutive;
  }

  lemma SendKeepsInv(m: Miner, t: nat, ok: bool)
    requires Inv(m) && t < |m.tasks| && m.tasks[t].phase.Submitting?
    ensures Inv(SendStep(m, t, ok))
  {
    var n := SendStep(m, t, ok);
    forall i, s | ValidatedBy(m, i, s) ensures ValidatedBy(n, i, s) {
    }
  }

  /** The other steps of a task neither number nor send: it holds a share only if it held it before. */
  lemma QuietActKeepsInv(lib: Library, m: Miner, t: nat, a: Act)
    requires Inv(m) && t < |m.tasks| && !a.Validate? && !a.Send?
    ensures Inv(ActStep(lib, m, t, a))
  {
    var n := ActStep(lib, m, t, a);
    QuietAct(lib, m, t, a);
    ActFrame(lib, m, t, a);
    hide ActStep;
    forall i, s | ValidatedBy(m, i, s) ensures ValidatedBy(n, i, s) {
    }
  }

  lemma QuietAct(lib: Library, m: Miner, t: nat, a: Act)
    requires t < |m.tasks| && !a.Validate? && !a.Send?
    ensures var n := ActStep(lib, m, t, a);
            && n.channel == m.channel && n.validators == m.validators && n.upstream == m.upstream
            && |n.tasks| == |m.tasks|
            && (Holds(n.tasks[t].phase) ==> n.tasks[t].phase == m.tasks[t].phase)
  {
  }

  lemma StepKeepsInv(lib: Library, m: Miner, l: Label)
    requires Inv(m)
    ensures Inv(Step(lib, m, l))
  {
    match l {
      case Write(r) =>
        ApplyFrame(lib, m.channel, r);
        hide Apply;
      case Take(t, a) =>
        if t < |m.tasks| {
          match a {
            case Validate => if m.tasks[t].phase.Found? { ValidateKeepsInv(lib, m, t); }
            case Send(ok) => if m.tasks[t].phase.Submitting? { SendKeepsInv(m, t, ok); }
            case _ => QuietActKeepsInv(lib, m, t, a);
          }
        }
        hide Inv, EnterStep, LoadStep, StartStep, PollStep, WorkStep, ValidateStep,
             SendStep, CancelSingleStep, StopStep;
      case _ =>
    }
  }

  lemma {:induction false} RunKeepsInv(lib: Library, m: Miner, ls: seq<Label>)
    requires Inv(m)
    ensures Inv(Run(lib, m, ls))
    decreases |ls|
  {
    if ls != [] {
      StepKeepsInv(lib, m, ls[0]);
      RunKeepsInv(lib, Step(lib, m, ls[0]), ls[1..]);
    }
  }

  /** In every interleaving the channel accepts shares numbered 1, 2, 3, ... without gap or repeat,
      whichever tasks built them; the shares sent are accepted ones, with pairwise distinct
      numbers; and the numbers one task sends increase. */
  lemma NumbersAreConsecutiveAndSentOnce(lib: Library, c: Channel, single: bool, ls: seq<Label>)
    requires c.accounting == NO_SHARES
    ensures var m := Run(lib, NewMiner(c, single), ls);
            && (forall i :: 0 <= i < |m.channel.accounting.validated| ==>
                  m.channel.accounting.validated[i].sequence == i + 1)
            && m.channel.accounting.lastSequence == |m.channel.accounting.validated|
            && (forall j :: 0 <= j < |m.upstream| ==> m.upstream[j].share in m.channel.accounting.validated)
            && (forall i, j :: 0 <= i < j < |m.upstream| ==>
                  m.upstream[i].share.sequence != m.upstream[j].share.sequence)
            && (forall i, j :: 0 <= i < j < |m.upstream| && m.upstream[i].task == m.upstream[j].task ==>
                  m.upstream[i].share.sequence < m.upstream[j].share.sequence)
  {
    RunKeepsInv(lib, NewMiner(c, single), ls);
    var m := Run(lib, NewMiner(c, single), ls);
    forall i, j | 0 <= i < j < |m.upstream| ensures m.upstream[i].share.sequence != m.upstream[j].share.sequence {
      assert ValidatedBy(m, m.upstream[i].task, m.upstream[i].share);
      assert ValidatedBy(m, m.upstream[j].task, m.upstream[j].share);
    }
    forall j | 0 <= j < |m.upstream| ensures m.upstream[j].share in m.channel.accounting.validated {
      assert ValidatedBy(m, m.upstream[j].task, m.upstream[j].share);
    }
  }

  /** Taken in this state, this step of task t builds share s and the channel accepts it. */
  predicate AcceptedBy(lib: Library, m: Miner, l: Label, t: nat, s: Share) {
    && l == Take(t, Validate) && t < |m.tasks| && m.tasks[t].phase.Found? && m.tasks[t].snap.Some? && !m.poisoned
    && s == NextShare(m.channel, m.tasks[t].snap.value.job.job.id, m.tasks[t].nonce, m.tasks[t].phase.ntime)
    && lib.validates(m.channel, s)
  }

  /** Each share a step validates was accepted in the state the step was taken in. */
  lemma StepAccepts(lib: Library, m: Miner, l: Label, t: nat, s: Share)
    requires Inv(m) && ValidatedBy(Step(lib, m, l), t, s)
    ensures ValidatedBy(m, t, s) || AcceptedBy(lib, m, l, t, s)
  {
    match l {
      case Write(r) =>
        ApplyFrame(lib, m.channel, r);
        hide Apply;
      case Take(i, a) =>
        if i < |m.tasks| && !a.Validate? && !a.Send? { QuietAct(lib, m, i, a); }
        hide EnterStep, LoadStep, StartStep, PollStep, WorkStep, CancelSingleStep, StopStep;
      case _ =>
    }
  }

  lemma {:induction false} RunAccepts(lib: Library, m: Miner, ls: seq<Label>, t: nat, s: Share)
    requires Inv(m) && ValidatedBy(Run(lib, m, ls), t, s)
    ensures ValidatedBy(m, t, s) || exists p :: 0 <= p < |ls| && AcceptedBy(lib, Run(lib, m, ls[..p]), ls[p], t, s)
    decreases |ls|
  {
    if ls != [] {
      var n := Step(lib, m, ls[0]);
      StepKeepsInv(lib, m, ls[0]);
      RunAccepts(lib, n, ls[1..], t, s);
      if ValidatedBy(n, t, s) {
        StepAccepts(lib, m, ls[0], t, s);
        assert Run(lib, m, ls[..0]) == m;
        hide Step, ValidatedBy, AcceptedBy;
      } else {
        var p :| 0 <= p < |ls| - 1 && AcceptedBy(lib, Run(lib, n, ls[1..][..p]), ls[1..][p], t, s);
        assert ls[..p + 1][1..] == ls[1..][..p] && ls[..p + 1][0] == ls[0];
        assert Run(lib, m, ls[..p + 1]) == Run(lib, n, ls[1..][..p]);
        hide Step, ValidatedBy, AcceptedBy;
      }
    }
  }

  /** Every share sent was accepted: at some earlier step its sender built it with the channel's next
      number, and `validate_share` accepted it on the channel state of that very moment. A share
      the channel rejects when it is built is never sent. */
  lemma SentSharesWereAccepted(lib: Library, c: Channel, single: bool, ls: seq<Label>, j: nat)
    requires c.accounting == NO_SHARES && j < |Run(lib, NewMiner(c, single), ls).upstream|
    ensures var m0 := NewMiner(c, single);
            var sent := Run(lib, m0, ls).upstream[j];
            exists p :: 0 <= p < |ls| && AcceptedBy(lib, Run(lib, m0, ls[..p]), ls[p], sent.task, sent.share)
  {
    var m0 := NewMiner(c, single);
    RunKeepsInv(lib, m0, ls);
    var m := Run(lib, m0, ls);
    assert ValidatedBy(m, m.upstream[j].task, m.upstream[j].share);
    RunAccepts(lib, m0, ls, m.upstream[j].task, m.upstream[j].share);
  }

  /** So if validation rejects every share of some kind, no share of that kind is ever sent. */
  lemma RejectedSharesAreNeverSent(lib: Library, c: Channel, single: bool, ls: seq<Label>, bad: Share -> bool)
    requires c.accounting == NO_SHARES && forall c, s :: bad(s) ==> !lib.validates(c, s)
    ensures forall j :: 0 <= j < |Run(lib, NewMiner(c, single), ls).upstream| ==>
              !bad(Run(lib, NewMiner(c, single), ls).upstream[j].share)
  {
    forall j | 0 <= j < |Run(lib, NewMiner(c, single), ls).upstream|
      ensures !bad(Run(lib, NewMiner(c, single), ls).upstream[j].share)
    {
      SentSharesWereAccepted(lib, c, single, ls, j);
    }
  }
}
