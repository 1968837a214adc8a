# A verified model of the Stratum V2 CPU miner

The miner keeps, for one connection to a mining server, its standard channels, its extended channels
and its groups of channels. A message's id names either a group, and then reaches every member, or one
channel. Behind each channel stands a miner that hashes the channel's active job in a task of its own;
a new active job cancels the old task and starts another, and the old one may take a last turn.

This project states what that machinery guarantees and proves it.

## How the model is built

- `ClientChannels` is the contract assumed of the channel types of the `channels_sv2` crate: what a
  request does to one channel. Every verdict of the crate (is a prefix, a job, a target, a share
  accepted?) is a field of `Library`, and every result holds for all choices of those functions.
- `MiningTasks` is the protocol of one miner as labelled steps: the three steps of a handler call
  (write the channel, revoke the token, respawn) interleaved in any way with the steps of all tasks,
  the clock, a panic under the lock and the global cancellation. `TaskSteps` writes out each step of
  a task, `ChannelHistory` what a channel holds after any messages, `Upstream` what gets queued;
  `SnapshotCoherence`, `MissingTip`, `Supersession`, `SearchSpace`, `ShareNumbers`, `SingleSubmit` and
  `SingleSubmitBound` prove what holds in every interleaving. Standard and extended miners run the same protocol, so there is one model of
  both.
- `ChannelMiners` and `ChannelManagers` are the source's objects: classes with mutable fields and
  maps, whose methods loop over members and groups. Each method is proved to do what `MiningTasks` or
  `Routing` says. `Routing` is that specification, on values; a message comes with the order in which
  the members were visited, since a hash set has none of its own, and the theorems are for all orders.
- `Opening`, `GroupIndex`, `Membership`, `FanOutOrder`, `Projection`, `OpenMiners`, `ShareTotals`,
  `ExtranonceSizes` and `Groupless` are the theorems about whole runs of server messages and task
  steps. `EveryMiner` carries a property of single miners to all of them, `Measures` a quantity that a
  message leaves alone. `FineRuns` takes handler calls apart, so that tasks also run during a message.
  `Witnesses` and `SampleRuns` hold the concrete runs used to show that something can happen.
- `Clock`, `Throttle`, `Hashrate` and `Formatting` are the arithmetic of the loops.

Hypotheses have names. `FreshRun` says no Open...Success carries the id of a channel that is open;
`ValidRun` that each message visits the channels it addresses, each once, in some order. Poisoned locks
are part of all runs; `SoundRun`, a run without them, occurs in examples only. Results without such
hypotheses hold of every run. A run ends at the first error a handler returns.

## Where the code does not do what its documentation says

- Single-submit mode is documented as stopping after the first share on each channel. The token is
  tested once, at the start of a task, so a superseded task that is past the test may send as well:
  any number of shares is possible (`SingleSubmitCanSendAnyNumber`). `SingleSubmitExactly` says, for
  every state a miner can be in, whether one share is the limit from there on, whether or not the
  verdicts already given bind the future; `DisciplinedMinerSendsOnce` what would make it one always.
- Every channel is documented to belong to a group. A channel whose group is redefined without it
  stays open and belongs to none: `RegroupCanLeaveAChannelOut`. `GroupsKeptExactly` says which messages
  do that, `RunOrphans` which channels those are.
- Every member of a group must have its full extranonce size. A prefix of another length is accepted
  without a check and breaks this: `PrefixKeepsSizesExactly`, and a reachable case in
  `PrefixCanSplitAGroup`.
- An id is meant to name one channel. `OneKindKeptExactly` says which messages keep this: all but an
  accepted open of an id that is open as the other kind. That leaves two channels under the id, and one
  survives the close: `CloseIsCompleteExactly`, and a reachable case in `ReusedIdSurvivesClose`.
- A task expects a chain tip when it starts. A job that arrives active before any SetNewPrevHash was
  accepted spawns a task that may find none and panic: `FirstJobCanPanic`. Whether some schedule of
  the tasks panics is decided by the order of the messages: `PanicsExactlyWhenAJobPrecedesTheTip`.

## Model

| member | source | states |
|---|---|---|
| MiningTasks.HandleIsUninterruptedCall | src/lib/miner/standard.rs:122-198 | a handler call is its write, revocation and respawn in a row, and leaves no call in progress |
| TaskSteps.TestAtTheStart | src/lib/miner/standard.rs:243-248 | a task ends at its start if and only if the single-submit token is cancelled |
| TaskSteps.SnapshotOfTheMoment | src/lib/miner/standard.rs:250-269 | the snapshot is the channel's job, tip and target of that moment; a poisoned lock ends the task, a missing job or tip is a panic |
| TaskSteps.LoopStarts | src/lib/miner/standard.rs:275-286 | the loop starts with nonce 0 and its clock at the reading of that moment |
| TaskSteps.LoopHeadHeedsCancellation | src/lib/miner/standard.rs:288-298 | at the loop head a task ends if and only if the global token or its own is cancelled, and otherwise waits for its turn |
| TaskSteps.WaitingHeedsCancellation | src/lib/miner/extended.rs:250-260 | a waiting task can be ended by exactly the same two cancellations |
| TaskSteps.HashesOneHeader | src/lib/miner/standard.rs:308-330 | in any run a turn hashes the header of the current nonce and clock; it goes to validation if and only if it meets the snapshot's target, and otherwise the nonce moves on modulo 2^32 |
| TaskSteps.ValidatesTheShare | src/lib/miner/standard.rs:331-359 | in any run a share gets the channel's next number; it is booked and held if and only if the channel accepts it, otherwise the task goes on with the next nonce; a poisoned lock ends the task |
| TaskSteps.SendsTheShare | src/lib/miner/standard.rs:366-387 | a share the queue takes is put at its end in either mode; the task goes on with the next nonce unless it has sent in single-submit mode |
| TaskSteps.CancelsTheToken | src/lib/miner/standard.rs:376-380 | having sent in single-submit mode a task cancels the token and ends |
| ChannelHistory.ChannelIsItsHistory | src/lib/miner/standard.rs:111-204 | in every interleaving target, prefix, chain tip, active job and future jobs are those of the last accepted message of the right sort |
| ChannelHistory.SnapshotsFollowTheMessages | src/lib/miner/standard.rs:250-269 | every task works on the job of the last activating message, the tip of the last accepted SetNewPrevHash and the target of the last accepted SetTarget before its snapshot |
| ChannelHistory.FutureJobsStay | src/lib/miner/extended.rs:82-157 | a future job stays stored until a SetNewPrevHash is accepted or a future job of its id replaces it |
| Upstream.QueueIsWhatWasSent | src/lib/miner/standard.rs:366-371 | in every run, in either mode, the queue is exactly the shares their tasks sent while holding them, in order |
| Upstream.SharesAreHeld | src/lib/miner/standard.rs:361-371 | a task that holds a share does nothing but send it |
| Upstream.AcceptedSharesAreOffered | src/lib/miner/extended.rs:330-345 | in every run every share the channel accepted is held by the task that built it or was offered to the queue |
| SnapshotCoherence.SnapshotsAreCoherent | src/lib/miner/standard.rs:122-198 | in every interleaving, between handler calls at most one task is live, it is the newest, and its snapshot is the channel's active job and chain tip |
| SnapshotCoherence.MidCallIsNotCoherent | src/lib/miner/extended.rs:127-134 | during a call a live task may be on a job that is no longer active, so the restriction to completed calls is needed |
| SnapshotCoherence.SnapshotPanicsExactlyWithoutTip | src/lib/miner/standard.rs:250-265 | in any run, of the two `expect` calls at a task's snapshot only the one on the chain tip can fail, and it fails exactly if the tip is unknown at that step: the active job is never missing |
| SnapshotCoherence.NoPanicOnceTheTipIsKnown | src/lib/miner/extended.rs:209-225 | once a chain tip is known no task of any later run panics at its snapshot |
| MissingTip.PanicsExactlyWhenAJobPrecedesTheTip | src/lib/miner/standard.rs:152-166 | for every sequence of handler calls, some interleaving with the tasks they spawn panics at a snapshot if and only if an accepted call makes a job active while no chain tip is known |
| MissingTip.FirstJobCanPanic | src/lib/miner/standard.rs:250-265 | a reachable run of a channel just opened in which a task panics |
| Supersession.CancelledTaskHashesAtMostOnce | src/lib/miner/standard.rs:288-298 | a task whose token, or the global one, is cancelled hashes at most one more header in any run, none unless it was already waiting in its select |
| Supersession.OlderTasksHashAtMostOnce | src/lib/miner/standard.rs:122-148 | in every run, once a newer task exists a task hashes at most one more header, none unless it was waiting |
| Supersession.ActivationStopsOlderTasks | src/lib/miner/standard.rs:187-198 | after an accepted call that makes a job active, so does every task spawned before it |
| Supersession.PoisonFreezesChannel | src/lib/error.rs:43-45 | once a channel's lock is poisoned nothing changes that channel and every handler call for it fails |
| Clock.ClampIsOneMinimum | src/lib/miner/standard.rs:308-312 | narrowing and saturating addition give the minimum of 2^32-1 and min_ntime plus elapsed seconds, for every elapsed time |
| SearchSpace.HeadersFollowTheClock | src/lib/miner/standard.rs:275-321 | iteration i of any task in any run uses nonce i mod 2^32 and a timestamp that is exact, never goes back, and never passes the seconds since the activating message |
| SearchSpace.WindowTriesEveryNonceOnce | src/lib/miner/standard.rs:390-392 | any 2^32 consecutive iterations of a task, in any run, try every nonce exactly once |
| SearchSpace.HeadersRepeatExactlyWithinALap | src/lib/miner/standard.rs:308-321 | a task of any run hashes no header twice if and only if every lap of the nonces ends on a later timestamp than it began on |
| SearchSpace.HeadersDoNotRepeatInAnyRun | src/lib/miner/extended.rs:281-294 | no header repeats in any run if no clock second spans more than 2^32 iterations and the timestamp is below its cap |
| SearchSpace.SubmissionsWereHashed | src/lib/miner/standard.rs:323-374 | every share sent is a header its task hashed, on the job of its snapshot, that met the snapshot's target |
| ShareNumbers.NumbersAreConsecutiveAndSentOnce | src/lib/miner/standard.rs:331-387 | over all overlapping tasks accepted shares are numbered 1, 2, 3, ... without gap or repeat; sent shares are accepted ones with distinct numbers, increasing within each task |
| ShareNumbers.SentSharesWereAccepted | src/lib/miner/standard.rs:331-374 | every share sent was built by its sender, with the channel's next number, at an earlier step and accepted by the validation on the channel state of that very step |
| ShareNumbers.RejectedSharesAreNeverSent | src/lib/miner/extended.rs:327-333 | so shares of a kind that validation always rejects are never sent, in any interleaving |
| SingleSubmit.SentAtMostThoseAdmitted | src/lib/miner/standard.rs:243-248 | each task sends at most one share, only tasks past the test when the token was cancelled send, and the total is at most their number |
| SingleSubmitBound.SingleSubmitExactly | src/lib/miner/standard.rs:373-381 | in every reachable state: every continuation stays at one share if and only if the shares sent plus the tasks that may still send are at most one and the token is cancelled, the miner stopped or its lock poisoned; below the last timestamp this holds also among libraries that stand by every verdict already given |
| SingleSubmitBound.SingleSubmitCanSendAnyNumber | src/lib/miner/extended.rs:202-207 | for every n some run of a single-submit miner sends n shares |
| SingleSubmitBound.DisciplinedMinerSendsOnce | src/lib/miner/extended.rs:347-354 | if sending and cancelling are one step and only the newest task steps, at most one share is ever sent |
| ChannelMiners.ChannelMiner.constructor | src/lib/miner/standard.rs:39-60 | a new miner has a fresh token, no task, and a single-submit token only in that mode |
| ChannelMiners.ChannelMiner.FullExtranonceSize | src/lib/miner/extended.rs:65-69 | the channel's full extranonce size, or the poisoned-lock error |
| ChannelMiners.ChannelMiner.Write | src/lib/miner/standard.rs:156-157 | the locked write: nothing on a poisoned lock or a refusal, the channel's own change otherwise |
| ChannelMiners.ChannelMiner.RespawnMiningTask | src/lib/miner/standard.rs:122-148 | revocation of the current token followed by a new token and task |
| ChannelMiners.ChannelMiner.OnNewMiningJob | src/lib/miner/standard.rs:152-166 | the protocol's uninterrupted call for a standard job |
| ChannelMiners.ChannelMiner.OnGroupChannelJob | src/lib/miner/standard.rs:171-185 | the protocol's uninterrupted call for a job derived from the group's |
| ChannelMiners.ChannelMiner.OnNewExtendedMiningJob | src/lib/miner/extended.rs:82-120 | the protocol's uninterrupted call for an extended job |
| ChannelMiners.ChannelMiner.OnSetNewPrevHash | src/lib/miner/extended.rs:123-157 | the protocol's uninterrupted call for a new chain tip |
| ChannelMiners.ChannelMiner.SetTarget | src/lib/miner/standard.rs:200-204 | the protocol's uninterrupted call for a target |
| ChannelMiners.ChannelMiner.SetExtranoncePrefix | src/lib/miner/standard.rs:111-118 | the protocol's uninterrupted call for a prefix |
| ChannelMiners.ChannelMiner.OnShareAcknowledgement | src/lib/miner/standard.rs:208-221 | the protocol's uninterrupted call for acknowledged shares |
| ChannelMiners.ChannelMiner.OnShareRejection | src/lib/miner/standard.rs:225-230 | the protocol's uninterrupted call for a rejected share |
| ChannelMiners.ChannelMiner.TakeStep | src/lib/miner/standard.rs:233-393 | a step of a task, of the clock or of a panic, made of the task's own reads and writes, moves the miner as the protocol says |
| ChannelMiners.ChannelMiner.MineJob | src/lib/miner/standard.rs:233-395 | the whole task with its loop, whatever handler calls and other tasks do at each of its waits: it goes through a run of the protocol in which the others do exactly that, hashes one header a turn, and stops only where the protocol's task ends |
| ChannelManagers.ChannelManager.constructor | src/lib/channel_manager/mod.rs:40-61 | a new manager has no channel and no group |
| ChannelManagers.ChannelManager.AddressedChannels | src/lib/channel_manager/mining_message_handler.rs:33-38 | lists the addressed channels, each once, in some order |
| ChannelManagers.ChannelManager.FullExtranonceSize | src/lib/channel_manager/mining_message_handler.rs:41-49 | the size of an open channel, unknown, or the poisoned-lock error |
| ChannelManagers.ChannelManager.JoinGroup | src/lib/channel_manager/mining_message_handler.rs:58-92 | membership and result follow the routing specification, refusals included |
| ChannelManagers.ChannelManager.HandleOpenStandard | src/lib/channel_manager/mining_message_handler.rs:113-176 | the new state is the specified one; every channel keeps a miner of its own |
| ChannelManagers.ChannelManager.HandleOpenExtended | src/lib/channel_manager/mining_message_handler.rs:178-244 | the new state is the specified one; every channel keeps a miner of its own |
| ChannelManagers.ChannelManager.HandleCloseChannel | src/lib/channel_manager/mining_message_handler.rs:269-296 | the loops over addressed channels and groups close them all at once |
| ChannelManagers.ChannelManager.HandleSetExtranoncePrefix | src/lib/channel_manager/mining_message_handler.rs:298-386 | reaches the channels under exactly that id; a poisoned lock ends it |
| ChannelManagers.ChannelManager.AccountShares | src/lib/channel_manager/mining_message_handler.rs:388-475 | a share verdict reaches the channel of that id; a poisoned lock is not returned |
| ChannelManagers.ChannelManager.HandleNewMiningJob | src/lib/channel_manager/mining_message_handler.rs:477-512 | reaches a standard channel of that id only |
| ChannelManagers.ChannelManager.HandleNewExtendedMiningJob | src/lib/channel_manager/mining_message_handler.rs:514-606 | error on a standard-jobs connection; otherwise the members of the group, or the extended channel of that id |
| ChannelManagers.ChannelManager.HandleSetNewPrevHash | src/lib/channel_manager/mining_message_handler.rs:608-658 | the addressed channels in some order, up to a poisoned lock |
| ChannelManagers.ChannelManager.HandleSetTarget | src/lib/channel_manager/mining_message_handler.rs:686-732 | the addressed channels in some order, up to a poisoned lock |
| ChannelManagers.ChannelManager.HandleSetGroupChannel | src/lib/channel_manager/mining_message_handler.rs:734-793 | the list is vetted before any group changes, then the groups are redefined all at once |
| ChannelManagers.ChannelManager.HandleMessage | src/lib/channel_manager/mining_message_handler.rs:95-794 | every message moves the manager as the routing specification says |
| ChannelManagers.ChannelManager.Serve | src/lib/client/mod.rs:93-115 | a whole connection, with task steps scheduled anywhere between messages, is a valid run of the specification; it is reported as going on exactly if every turn was handled without error, and as an error only if the last turn gave that error and all before it gave none; it keeps the integrity of ids and groups |
| Opening.OpensExactly | src/lib/channel_manager/mining_message_handler.rs:113-244 | in every reachable state an Open...Success takes effect if and only if prefix and channel are accepted, the group id is no open channel, the id is no group id, and the group is new or has the channel's full extranonce size; it then adds that one channel, with a new miner that has a single-submit token if and only if configured |
| Opening.ReportedSize | src/lib/channel_manager/mining_message_handler.rs:41-49 | the size reported for an open channel is its prefix length, plus its rollable bytes if it is extended |
| GroupIndex.EveryRunFromNothingKeepsIndex | src/lib/channel_manager/mining_message_handler.rs:58-92 | in every run, reused ids and poisoned locks included, group ids and channel ids are disjoint, no group is empty and every member is open |
| GroupIndex.AddressedIsPreimage | src/lib/channel_manager/mining_message_handler.rs:30-38 | an id addresses exactly the channels mapped to it, or the channel of that id |
| GroupIndex.NextRefines | src/lib/channel_manager/mining_message_handler.rs:759-790 | one event updates the channel-to-group map: point update, removal, or one group's channels replaced |
| GroupIndex.FreshRunFromNothingRefines | src/lib/channel_manager/mod.rs:1-4 | in every run with fresh ids the groups are the inverse of that map and no id is both a standard and an extended channel |
| GroupIndex.OneKindKeptExactly | src/lib/channel_manager/mining_message_handler.rs:164-173 | an event leaves every id with one channel if and only if it is no accepted open of an id that is open as the other kind |
| Membership.CloseIsCompleteExactly | src/lib/channel_manager/mining_message_handler.rs:277-292 | an addressed channel is in no group after a close, and is closed unless two kinds were open under its id |
| Membership.CloseSparesTheRest | src/lib/channel_manager/mining_message_handler.rs:277-292 | channels not addressed keep their state and memberships |
| Membership.CloseDropsEmptiedGroups | src/lib/channel_manager/mining_message_handler.rs:289-293 | exactly the groups left without a member disappear |
| Membership.ReopenedChannelInheritsNothing | src/lib/channel_manager/mining_message_handler.rs:164-173 | whenever an id that is not open is opened, however long after its close, it has a new miner and no membership but the one it names |
| Membership.ReopenedAfterCloseInheritsNothing | src/lib/channel_manager/mining_message_handler.rs:277-293 | the same directly after a close that addressed the id, even if the id is still open as the other kind |
| Membership.ReusedIdSurvivesClose | src/lib/channel_manager/mining_message_handler.rs:278-281 | a reachable run in which an id is open as both kinds, and stays open after its close |
| Membership.VetExactly | src/lib/channel_manager/mining_message_handler.rs:760-776 | a list passes if and only if its channels are all open and of one size, and gives exactly those members and that size |
| Membership.RegroupIsAllOrNothing | src/lib/channel_manager/mining_message_handler.rs:746-792 | SetGroupChannel takes effect if and only if the group id is not an open channel and the list passes; refused it changes nothing; accepted it moves exactly the listed channels |
| Membership.RegroupIgnoresOrder | src/lib/channel_manager/mining_message_handler.rs:759-790 | order and repetition in the list do not matter to the state, and without poisoned locks not to the outcome |
| Membership.RegroupIsIdempotent | src/lib/channel_manager/mining_message_handler.rs:778-790 | the same SetGroupChannel again changes nothing |
| FanOutOrder.FanOutIsPointwise | src/lib/channel_manager/mining_message_handler.rs:616-655 | visiting channels one by one is asking them all at once; a refusal by one affects no other |
| FanOutOrder.FanOutStopsAtPoison | src/lib/channel_manager/mining_message_handler.rs:625-642 | at a poisoned lock exactly the channels visited before it have taken the message, and the error ends the run |
| FanOutOrder.FanOutIgnoresOrder | src/lib/channel_manager/mining_message_handler.rs:563-603 | the order of visits does not matter while the visited channels' locks are sound |
| FanOutOrder.GroupMessageIsItsParts | src/lib/channel_manager/mining_message_handler.rs:608-732 | a SetNewPrevHash or SetTarget to a group of members with sound locks equals the same message to each member separately, for all orders, each reaching its member alone |
| FanOutOrder.CloseGroupIsItsParts | src/lib/channel_manager/mining_message_handler.rs:277-293 | closing a group equals closing its members one by one in any order |
| Projection.NextProjects | src/lib/channel_manager/mining_message_handler.rs:477-732 | in every state with one channel to an id, poisoned locks included, one fresh event changes a channel as that channel alone would change on the input the event brings it |
| Projection.AddressedChannelsAreAsked | src/lib/channel_manager/mining_message_handler.rs:33-38 | a fanned-out message that gives no error brings exactly the channels it addresses its request: the message itself, or for a group's extended job a job to derive on standard and to store on extended channels |
| Projection.GroupJobReachesTheMembers | src/lib/channel_manager/mining_message_handler.rs:559-603 | a group's extended job that gives no error is handled by each standard member as a job to derive, by each extended member as one to store, and changes nothing else |
| Projection.MembersHoldTheGroupJob | src/lib/miner/standard.rs:171-185 | a standard member then holds the job derived with its own prefix, an extended one the job as sent, under its id or as the active job with a new task |
| Projection.RunProjects | src/lib/channel_manager/mining_message_handler.rs:514-732 | over every run with fresh ids, poisoned locks included, a channel's state is the replay of its own inputs, whatever other channels hold |
| Projection.RunFromNothingProjects | src/lib/channel_manager/mod.rs:40-61 | so from the empty manager on each open channel is what its own messages made of it |
| Projection.UnaddressedChannelsAreUntouched | src/lib/channel_manager/mining_message_handler.rs:1-3 | an event that brings a channel no input leaves it as it was |
| Projection.ErrorsExactly | src/lib/channel_manager/mining_message_handler.rs:514-793 | what every message returns in every state: an error exactly for custom-job replies, for extended jobs and regroupings when standard jobs are required, and for the messages that meet a poisoned lock, on a channel they are asked to change or on a listed channel all before which are open and of one size |
| Projection.ErrorsChangeNothing | src/lib/channel_manager/mining_message_handler.rs:660-684 | a message that ends a run changes nothing, unless it had reached some channels of a fan-out before the poisoned lock |
| OpenMiners.EveryOpenChannelIsGuaranteed | src/lib/channel_manager/mod.rs:25-37 | in every run of the manager, reused ids included, each open channel of either kind has the protocol's guarantees: coherent snapshots, consecutive numbers, sent shares accepted, hashed, with distinct numbers increasing within each task |
| OpenMiners.EveryOpenChannelIsGuaranteedThroughout | src/lib/channel_manager/mining_message_handler.rs:563-655 | the same when handler calls are taken apart, so that tasks of all channels run during a message as well |
| FineRuns.FanOutInParts | src/lib/channel_manager/mining_message_handler.rs:616-655 | a fan-out is the three steps of each visited channel's call run in a row |
| FineRuns.PartsProject | src/lib/channel_manager/mining_message_handler.rs:563-655 | whatever steps of tasks and handler calls are put between and inside the visits, no group changes and each channel ends as its own steps alone leave it |
| ShareTotals.TotalsFromNothing | src/lib/channel_manager/mining_message_handler.rs:388-475 | in every run with fresh ids, poisoned locks included, a channel's totals are the sums over the verdicts that named its id since it opened and found its lock sound; the others are logged and lost |
| ShareTotals.StrayVerdictsChangeNothing | src/lib/channel_manager/mining_message_handler.rs:408-414 | a verdict naming a group or an id that is not open changes nothing |
| ExtranonceSizes.JoinSizeIsReported | src/lib/channel_manager/mining_message_handler.rs:223-228 | in every run with fresh ids after an accepted open, until the channel closes or its prefix changes length, its size stays the one passed on joining, and is reported unless its lock is poisoned |
| ExtranonceSizes.RunFromNothingKeepsSizes | src/lib/channel_manager/mining_message_handler.rs:77-91 | in every run with fresh ids whose accepted prefixes keep their length, poisoned locks included, every member has its group's size |
| ExtranonceSizes.PrefixKeepsSizesExactly | src/lib/channel_manager/mining_message_handler.rs:323-376 | a SetExtranoncePrefix keeps that agreement if and only if it is refused (a poisoned lock is a refusal), keeps the length, or concerns a channel in no group |
| ExtranonceSizes.PrefixCanSplitAGroup | src/lib/channel_manager/mining_message_handler.rs:329-335 | a reachable run after which two members of one group differ in size |
| Groupless.NextOrphans | src/lib/channel_manager/mining_message_handler.rs:778-790 | the groupless channels after an event: the target's old members join them, the listed and the closed leave them |
| Groupless.GroupsKeptExactly | src/lib/channel_manager/mining_message_handler.rs:785-790 | an event leaves no channel newly groupless if and only if it is no accepted SetGroupChannel or its list contains every old member of the target |
| Groupless.RegroupCanLeaveAChannelOut | src/lib/channel_manager/mining_message_handler.rs:785-789 | a reachable run after which an open channel is in no group |
| Groupless.RunOrphans | src/lib/channel_manager/mining_message_handler.rs:785-790 | over runs a channel is groupless only through a regrouping that left it out |
| Groupless.StandardJobsFromNothing | src/lib/channel_manager/mining_message_handler.rs:742-744 | when standard jobs are required every open channel is, until its close, in exactly the group named when it opened |
| Groupless.NoExtendedJobIsHeld | src/lib/channel_manager/mining_message_handler.rs:522-524 | when standard jobs are required no channel ever holds a job derived from an extended one |
| Throttle.DutyCycle | src/lib/miner/standard.rs:283-307 | k completed windows hold between k*p and k*(p+h) ms of work and at least k*(100-p) ms of sleep, and the open one less than p ms of work |
| Throttle.SleepsExactlyWhenUsedUp | src/lib/miner/standard.rs:299-306 | a check sends the task to sleep if and only if p whole milliseconds of the window have passed, and then a new window begins |
| Hashrate.MeasureHashrate | src/lib/miner/mod.rs:30-92 | the loop ends within 2^64 turns even if the clock stops, hashes header i at turn i, and counts its turns, the full 2^64 as 0 |
| Hashrate.HeadersDiffer | src/lib/miner/mod.rs:60-88 | the headers of different turns differ |
| Hashrate.MeasurementDutyCycle | src/lib/miner/mod.rs:50-58 | the measurement's throttle keeps the duty cycle |
| Formatting.FormatNumberWithUnderscores | src/lib/miner/mod.rs:107-119 | deleting the underscores and reading the decimal gives the number back, without leading zeros; underscores stand exactly before every third digit from the right |
| Formatting.BlocksOfThree | src/lib/miner/mod.rs:105-106 | the first block has one to three digits, every other exactly three |

## Left out

- TCP, Noise, frames, logging, command line and configuration loading: plumbing without logic of its own.
- Hashing, header serialisation, merkle roots and coinbase parsing: the comparison with the target, the derivation of a job and the validation of a share are arbitrary functions in `Library`. The `expect` on the merkle root of an extended job is not modelled.
- The behaviour of the `channels_sv2` types beyond the contract in `ClientChannels`: a group is a set with one size, activating a future job drops the others, only an accepted share moves the sequence number. 32-bit overflow of sequence numbers and totals is not modelled.
- The tokio runtime: `select!` is modelled through one fact, that `yield_now` is never ready at its first poll, so a task sees a cancellation that is pending when it reaches the loop head. Nothing is claimed about progress, about how soon a task ends, or about tasks of a closed channel, whose miner is dropped with its token uncancelled.
- Interleaving of task steps inside a message is covered for the guarantees of each channel's miner and for the independence of channels (`FineRuns`); in the theorems on whole runs of groups, inputs, sizes and totals a message is one step, with task steps between messages.
- Whether a panic at a task's snapshot poisons the lock: poisoning is an event of its own that may happen at any time.
- Objects shared between tasks: a task's reference to its channel is an index into its miner's state, not an alias on the heap.
- The two share-verdict handlers differ only in the request they make and are one method, `AccountShares`; the loops that visit members share `FanOut`.
- The floating-point hashrate, the hashrate multiplier and `open_channels`: no property beyond their text.
- MeasureHashrate: wraps its 64-bit count as a release build does; a debug build would panic at the last increment.
