// Conservation of share verdicts: a channel's totals are the sums over the SubmitShares messages
// that named its id since it opened, except those that found its lock poisoned: these are logged
// and lost, and the run goes on.
module ShareTotals {
  import opened Wrappers
  import opened ClientChannels
  import opened MiningTasks
  import opened Routing
  import opened GroupIndex
  import opened Projection
  import opened Measures

  datatype Totals = Totals(acknowledged: nat, work: nat, rejections: multiset<string>)

  const NO_TOTALS := Totals(0, 0, multiset{})

  function TotalsOf(m: Miner): Totals {
    var a := m.channel.accounting;
    Totals(a.acknowledged, a.workSum, a.rejections)
  }

  function Plus(r: Request, t: Totals): Totals {
    match r
    case Acknowledge(n, w) => t.(acknowledged := t.acknowledged + n, work := t.work + w)
    case Reject(code) => t.(rejections := t.rejections + multiset{code})
    case _ => t
  }

  /** A verdict naming this id is booked: the channel is open and its lock is sound. */
  predicate Booked(s: Manager, id: Id) {
    Local(s, id).Some? && !Local(s, id).value.poisoned
  }

  /** The tally of one id after one event: a booked verdict naming the id adds to it, opening the id
      starts it again, and nothing else counts. */
  function Tally(lib: Library, s: Manager, id: Id, e: Event, t: Totals): Totals {
    if e.Background? then t else
    match e.msg
    case SharesSuccess(i, n, w) => if i == id && Booked(s, id) then Plus(Acknowledge(n, w), t) else t
    case SharesError(i, code) => if i == id && Booked(s, id) then Plus(Reject(code), t) else t
    case OpenStandard(i, _, _, _) => if i == id && OpenMessageAccepted(lib, s, e.msg) then NO_TOTALS else t
    case OpenExtended(i, _, _, _, _) => if i == id && OpenMessageAccepted(lib, s, e.msg) then NO_TOTALS else t
    case _ => t
  }

  function TallyRun(cfg: Config, lib: Library, s: Manager, id: Id, es: seq<Event>, t: Totals): Totals
    decreases |es|
  {
    if es == [] then t else
    var (s', o) := Next(cfg, lib, s, es[0]);
    var t' := Tally(lib, s, id, es[0], t);
    if o.Fatal? then t' else TallyRun(cfg, lib, s', id, es[1..], t')
  }

  function LocalTotals(s: Manager, id: Id): Option<Totals> {
    LocalOf(s, id, TotalsOf)
  }

  ghost predicate Agrees(s: Manager, id: Id, t: Totals) {
    LocalTotals(s, id).Some? ==> LocalTotals(s, id).value == t
  }

  lemma OnlyValidationAccounts(lib: Library, m: Miner, t: nat, a: Act)
    requires !(a.Validate? && t < |m.tasks| && m.tasks[t].phase.Found?)
    ensures ActStep(lib, m, t, a).channel == m.channel
  {
  }

  lemma StepKeepsTotals(lib: Library, m: Miner, l: Label)
    requires BackgroundLabel(l)
    ensures TotalsOf(Step(lib, m, l)) == TotalsOf(m)
  {
    if l.Take? {
      if l.act.Validate? && l.task < |m.tasks| && m.tasks[l.task].phase.Found? {
      } else {
        OnlyValidationAccounts(lib, m, l.task, l.act);
        hide ActStep;
      }
    }
  }

  lemma HandleAdds(lib: Library, m: Miner, r: Request)
    ensures TotalsOf(Handle(lib, m, r).0) == if m.poisoned then TotalsOf(m) else Plus(r, TotalsOf(m))
  {
  }

  lemma AccountProjects(lib: Library, s: Manager, i: Id, r: Request, id: Id)
    ensures Local(Account(lib, s, i, r), id)
            == if i == id && Local(s, id).Some? then Some(Handle(lib, Local(s, id).value, r).0) else Local(s, id)
  {
    hide Handle;
  }

  lemma AccountAdds(lib: Library, s: Manager, i: Id, r: Request, id: Id)
    ensures LocalTotals(Account(lib, s, i, r), id)
            == if i == id && Booked(s, id) then Some(Plus(r, LocalTotals(s, id).value)) else LocalTotals(s, id)
  {
    AccountProjects(lib, s, i, r, id);
    if Local(s, i).Some? { HandleAdds(lib, Local(s, i).value, r); }
    hide Handle, TotalsOf, Plus, Account, Local;
  }

  /** A message that is no verdict and opens or closes nothing moves no totals. */
  lemma OthersKeepTotals(cfg: Config, lib: Library, s: Manager, e: Event, id: Id)
    requires e.Receive? ==>
               !Opens(e.msg) && !e.msg.CloseChannel? && !e.msg.SharesSuccess? && !e.msg.SharesError?
    ensures LocalTotals(Next(cfg, lib, s, e).0, id) == LocalTotals(s, id)
  {
    forall m, r: Request | !r.Acknowledge? && !r.Reject? ensures TotalsOf(Handle(lib, m, r).0) == TotalsOf(m) {
      HandleAdds(lib, m, r);
    }
    forall m, l | BackgroundLabel(l) ensures TotalsOf(Step(lib, m, l)) == TotalsOf(m) { StepKeepsTotals(lib, m, l); }
    hide Handle, Step, HandleMessage, Advance, LocalOf, TotalsOf;
    match e {
      case Receive(msg, order) => MessageLeaves(cfg, lib, s, msg, order, id, TotalsOf);
      case Background(i, standard, l) => AdvanceLeaves(lib, s, i, standard, l, id, TotalsOf);
    }
  }

  lemma NextTallies(cfg: Config, lib: Library, s: Manager, id: Id, e: Event, t: Totals)
    requires IndexInv(s) && OneKind(s) && Fresh(s, e) && Agrees(s, id, t)
    ensures Agrees(Next(cfg, lib, s, e).0, id, Tally(lib, s, id, e, t))
  {
    hide Open, Close, IndexInv, Plus, Account;
    if e.Background? {
      OthersKeepTotals(cfg, lib, s, e, id);
    } else {
      match e.msg {
        case OpenStandard(i, g, p, u) => OpenProjects(cfg, lib, s, id, i, g, Standard, p, u);
        case OpenExtended(i, g, p, u, r) => OpenProjects(cfg, lib, s, id, i, g, Extended(r), p, u);
        case CloseChannel(i) => CloseProjects(s, i, id);
        case SharesSuccess(i, n, w) => AccountAdds(lib, s, i, Acknowledge(n, w), id);
        case SharesError(i, code) => AccountAdds(lib, s, i, Reject(code), id);
        case _ =>
          OthersKeepTotals(cfg, lib, s, e, id);
          hide Next;
      }
    }
  }

  /** Over every run with fresh ids, poisoned locks included, an open channel's acknowledged shares,
      acknowledged work and rejections are exactly the sums over the verdicts booked for its id since
      it opened. A verdict naming a group, or an id that is not open, counts for no channel. */
  lemma {:induction false} TotalsAreConserved(
    cfg: Config, lib: Library, s: Manager, id: Id, es: seq<Event>, t: Totals)
    requires IndexInv(s) && OneKind(s) && FreshRun(cfg, lib, s, es) && Agrees(s, id, t)
    ensures Agrees(RunEvents(cfg, lib, s, es), id, TallyRun(cfg, lib, s, id, es, t))
    decreases |es|
  {
    if es != [] {
      NextTallies(cfg, lib, s, id, es[0], t);
      NextKeepsIndex(cfg, lib, s, es[0]);
      NextKeepsOneKind(cfg, lib, s, es[0]);
      var (s', o) := Next(cfg, lib, s, es[0]);
      hide Next, Agrees, Tally, IndexInv, OneKind;
      if !o.Fatal? { TotalsAreConserved(cfg, lib, s', id, es[1..], Tally(lib, s, id, es[0], t)); }
    }
  }

  lemma TotalsFromNothing(cfg: Config, lib: Library, id: Id, es: seq<Event>)
    requires FreshRun(cfg, lib, NO_CHANNELS, es)
    ensures Agrees(RunEvents(cfg, lib, NO_CHANNELS, es), id, TallyRun(cfg, lib, NO_CHANNELS, id, es, NO_TOTALS))
  {
    TotalsAreConserved(cfg, lib, NO_CHANNELS, id, es, NO_TOTALS);
  }

  /** A verdict addressed to a group id, or to an id that is not open, changes no channel at all. */
  lemma StrayVerdictsChangeNothing(cfg: Config, lib: Library, s: Manager, id: Id, r: Request)
    requires IndexInv(s) && (id in s.groups || !IsOpen(s, id))
    ensures Account(lib, s, id, r) == s
  {
  }
}
