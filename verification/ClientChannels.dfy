// The state of one mining channel as the miner sees it: the contract this model assumes of the
// channel types of the `channels_sv2` crate, whose source is not part of this model.
module ClientChannels {
  import opened Wrappers

  type Id = nat
  type Bytes = seq<bv8>

  /** A standard channel, or an extended one with its number of rollable extranonce bytes. */
  datatype Kind = Standard | Extended(rollable: nat)

  /** A job message, whichever of NewMiningJob and NewExtendedMiningJob carried it. It is already
      active when it comes with a `minNtime`, and a future job otherwise. */
  datatype JobMessage = JobMessage(jobId: Id, minNtime: Option<u32>, body: nat)

  datatype PrevHashMessage = PrevHashMessage(jobId: Id, prevHash: nat, nbits: nat, minNtime: u32)

  /** A job a channel holds. `fromExtended` remembers that an extended job message was its origin. */
  datatype Job = Job(id: Id, body: nat, fromExtended: bool)

  datatype ActiveJob = ActiveJob(job: Job, minNtime: u32)

  datatype ChainTip = ChainTip(prevHash: nat, nbits: nat)

  datatype Share = Share(sequence: nat, jobId: Id, nonce: u32, ntime: u32)

  /** Share accounting. `validated` lists the shares the channel accepted, oldest first. */
  datatype Accounting = Accounting(
    lastSequence: nat,
    validated: seq<Share>,
    acknowledged: nat,
    workSum: nat,
    rejections: multiset<string>)

  datatype Channel = Channel(
    id: Id,
    kind: Kind,
    prefix: Bytes,
    target: nat,
    future: map<Id, Job>,
    active: Option<ActiveJob>,
    tip: Option<ChainTip>,
    accounting: Accounting)

  /** The verdicts of the invisible crate. Every result holds for all choices of them. */
  datatype Library = Library(
    // ExtranoncePrefix::from_wire accepts these bytes
    wirePrefix: Bytes -> bool,
    // StandardChannel::new or ExtendedChannel::new accepts its arguments
    opens: Channel -> bool,
    // on_new_mining_job or on_new_extended_mining_job accepts the job
    acceptsJob: (Channel, JobMessage) -> bool,
    // the body of the standard job derived from an extended job, when its coinbase parses
    derive: (Bytes, JobMessage) -> Option<nat>,
    // set_target accepts the target
    acceptsTarget: (Channel, nat) -> bool,
    // set_extranonce_prefix accepts the prefix
    acceptsPrefix: (Channel, Bytes) -> bool,
    // validate_share accepts the share
    validates: (Channel, Share) -> bool,
    // the header of this job, chain tip, ntime and nonce hashes to at most this target
    meets: (ActiveJob, ChainTip, nat, u32, u32) -> bool)

  const NO_SHARES := Accounting(0, [], 0, 0, multiset{})

  /** A channel as its constructor leaves it. */
  function NewChannel(id: Id, kind: Kind, prefix: Bytes, target: nat): Channel {
    Channel(id, kind, prefix, target, map[], None, None, NO_SHARES)
  }

  /** The full extranonce size, which every member of a group must share. */
  function FullExtranonceSize(c: Channel): nat {
    |c.prefix| + match c.kind case Standard => 0 case Extended(rollable) => rollable
  }

  /** What one handler call asks of one channel. */
  datatype Request =
    | NewJob(job: JobMessage)
    | GroupJob(job: JobMessage)
    | ExtendedJob(job: JobMessage)
    | PrevHash(prevHash: PrevHashMessage)
    | Target(target: nat)
    | Prefix(prefix: Bytes)
    | Acknowledge(count: nat, work: nat)
    | Reject(code: string)

  /** Stores a job: active at once when it carries a min_ntime, as a future job otherwise. */
  function StoreJob(c: Channel, job: Job, minNtime: Option<u32>): Channel {
    match minNtime
    case Some(ntime) => c.(active := Some(ActiveJob(job, ntime)))
    case None => c.(future := c.future[job.id := job])
  }

  /** Moves a future job to active on a new chain tip and drops the other future jobs. */
  function ActivateFuture(c: Channel, m: PrevHashMessage): Option<Channel> {
    if m.jobId in c.future then
      Some(c.(active := Some(ActiveJob(c.future[m.jobId], m.minNtime)),
              tip := Some(ChainTip(m.prevHash, m.nbits)),
              future := map[]))
    else None
  }

  /** The channel after a request, or None when the channel refuses it and stays as it was. */
  function Apply(lib: Library, c: Channel, r: Request): Option<Channel> {
    match r
    case NewJob(j) =>
      if lib.acceptsJob(c, j) then Some(StoreJob(c, Job(j.jobId, j.body, false), j.minNtime)) else None
    case GroupJob(j) =>
      (match lib.derive(c.prefix, j)
       case Some(body) => Some(StoreJob(c, Job(j.jobId, body, true), j.minNtime))
       case None => None)
    case ExtendedJob(j) =>
      if lib.acceptsJob(c, j) then Some(StoreJob(c, Job(j.jobId, j.body, true), j.minNtime)) else None
    case PrevHash(p) => ActivateFuture(c, p)
    case Target(t) => if lib.acceptsTarget(c, t) then Some(c.(target := t)) else None
    case Prefix(p) => if lib.acceptsPrefix(c, p) then Some(c.(prefix := p)) else None
    case Acknowledge(n, w) =>
      Some(c.(accounting := c.accounting.(acknowledged := c.accounting.acknowledged + n,
                                          workSum := c.accounting.workSum + w)))
    case Reject(code) =>
      Some(c.(accounting := c.accounting.(rejections := c.accounting.rejections + multiset{code})))
  }

  /** Whether an accepted request makes a job active, so that mining restarts. */
  predicate Activates(r: Request) {
    match r
    case NewJob(j) => j.minNtime.Some?
    case GroupJob(j) => j.minNtime.Some?
    case ExtendedJob(j) => j.minNtime.Some?
    case PrevHash(_) => true
    case _ => false
  }

  /** The share a task builds under the write lock: the next sequence number. */
  function NextShare(c: Channel, jobId: Id, nonce: u32, ntime: u32): Share {
    Share(c.accounting.lastSequence + 1, jobId, nonce, ntime)
  }

  /** The channel after validating a share it accepts: only this moves the sequence number. */
  function Validated(c: Channel, s: Share): Channel {
    c.(accounting := c.accounting.(lastSequence := s.sequence, validated := c.accounting.validated + [s]))
  }

  /** A request that activates nothing leaves the active job and the chain tip alone, and no
      request touches the sequence number, the channel's id or its kind. */
  lemma ApplyFrame(lib: Library, c: Channel, r: Request)
    ensures var o := Apply(lib, c, r);
            o.Some? ==>
              && (!Activates(r) ==> o.value.active == c.active && o.value.tip == c.tip)
              && (Activates(r) ==> o.value.active.Some?)
              && (c.tip.Some? ==> o.value.tip.Some?)
              && o.value.accounting.lastSequence == c.accounting.lastSequence
              && o.value.accounting.validated == c.accounting.validated
              && o.value.id == c.id && o.value.kind == c.kind
              && (!r.Prefix? ==> o.value.prefix == c.prefix)
  {
  }
}
