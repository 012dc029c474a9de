# DoomDraft, verified

A Dafny model of DoomDraft, a collaborative editor on a replicated log, and proofs about it. The
project covers four parts of the system.

1. **Consensus** (`pset4/pt-paxos.cc`; `pset4/pt-collab.cc` holds a second copy of the same
   replica). `PaxosSpec` says what each handler does on a log that is never trimmed,
   `PaxosReplica` is the replica object with its trimmed log, proved to refine those handlers, and
   `PaxosCluster` is the cluster as a transition system. `PaxosLeader`, `PaxosInvariance`,
   `PaxosHandlers`, `PaxosProgress` and `PaxosConduct` prove the invariant step by step;
   `PaxosSafety`, `PaxosAgreement`, `PaxosAuthority`, `PaxosExact`, `PaxosRealTime`,
   `PaxosPending` and `PaxosTrim` state what every run keeps. `PaxosElection`, `PaxosRepair`,
   `PaxosService` and `PaxosRedirect` state what the handlers achieve together: who wins an
   election, how a follower's log is repaired, what clients are told. The safety argument follows
   sections 5.3, 5.4.1 and 5.4.2 of Ongaro and Ousterhout, "In Search of an Understandable Consensus
   Algorithm" (2014), with an appointed leader in round 0.
2. **Operational transformation**: the pairwise transform (`DocOps`), what edits make of a text
   (`DocEdits`), and the transform's meaning and the diamond law, for pairs and for whole sequences
   (`DocDiamond`).
3. **Runtime structures of Cotamer**: the timer heap (`TimerHeap`, `CircularInt`), the
   reader/writer mutex (`MutexLatch`, `MutexModel`, `MutexSafety`, `MutexCode`) and the fd watch
   table (`WatchLists`, `WatchTable`, `WatchSet`).
4. **Store, replay and caches**: the versioned store and its skew-tolerant comparison (`PancyDb`,
   `PancyLaws`, `PancyDiff`), storage formats (`Codec`), replay of a document (`DocState`), the server's
   incremental cache (`DocCache`) and convergence of replicas (`DocConvergence`, `DocDivergence`).

`dafny verify dfyconfig.toml` checks everything.

## How the model is set up

- One handler call of a replica is one atomic step, since each replica runs a single coroutine.
  Messages in flight form a multiset: they are delayed, reordered and lost at will, never forged or
  duplicated. Timers are steps that may happen at any time. A "failed" replica keeps its memory, so
  failure is loss of messages. Cluster states carry history: the votes, every message sent, and for
  each round the log its leader started from and has now.
- The commit rule at `pset4/pt-paxos.cc:784-786` is modelled as the code has it: a follower caps its
  commit index at its last slot, not at the end of the batch it has just checked. Election safety,
  log matching, leader completeness and at-most-once application hold of it as it stands. Agreement
  of applied state does not: `PaxosCounterexample` builds a reachable run in which two replicas
  apply different requests at one slot. The exact condition over runs is that no follower commits
  an entry its proposing leader does not have (`StateMachineExactly`); `CommitGuardExact` gives the
  weakest test by which a follower can make sure of it before it commits, and
  `GuardedRunIsTruthful` says that the test is enough. What clients see is not affected: leaders
  agree with one another, and replies with one another, in every run (`PaxosAuthority`).
- A replica refuses proposals that start below its trim watermark, with a hint that points ahead, and
  `handle_ack` follows a hint only backwards (`pset4/pt-paxos.cc:741-744`, `824-833`). So a leader
  that starts below the watermark of a follower that has trimmed further is refused over and over.
  `RepairExactly` says that repair from a proposal that reaches the first difference of the logs ends
  in all cases but this one, and `NewLeaderRepairs` that a new leader is not in it.
- The store's get handler tests an address that is never null, so it answers OK with an empty value
  and version 0 for a missing key (`pset4/pancydb.cc:7-13`); the model does the same.
- `pset4/doc_ops.hh:17-29` excepts all inserts at one position from the diamond law. The exact
  exception is smaller, two inserts at one position whose texts do not commute, as long as the
  operations are in range. `apply_op` also accepts operations out of range and clamps them; then
  more pairs fail, and `DiamondGuard` says which.
- A waiter of the mutex or a watch that is abandoned is an event nobody awaits any more. The mutex
  object is given an arbitrary function that says who gives up waiting before each of the latch
  holder's looks at the queue; the mutex model lets waiters be abandoned between any two steps.
- Some facts are kept folded: a predicate quantified over `Unfold(n)`, or over a key of its own, is
  only opened where the key is asserted. It says nothing else.

## Model

| member | source | states |
|---|---|---|
| `PaxosSafety.CommittedEntriesSurvive` | pset4/pt-paxos.cc:438-446 | Leader completeness over runs: once the leader of a round has advanced its commit index to slot k, every leader of a later round, in every state of the run, holds the same k entries; any cluster size, any loss and delay |
| `PaxosSafety.LeaderCompleteness` | pset4/pt-paxos.cc:507-528 | In any state of the invariant, a prefix a quorum acknowledged in round r is in the starting log of every leader of a later round |
| `PaxosSafety.LeaderCommitIsChosen` | pset4/pt-paxos.cc:799-819 | A leader's commit index moves only to a slot of its own round that a quorum has acknowledged |
| `PaxosSafety.UpToDateHolds` | pset4/pt-paxos.cc:681-703 | A candidate's log that is at least as up to date as that of a voter holding a chosen prefix, and whose last round has kept that prefix, holds the prefix too |
| `PaxosSafety.ElectionSafety` | pset4/pt-paxos.cc:655-726 | At most one replica leads in a round over the whole run, appointed round 0 included |
| `PaxosSafety.LogMatchingSafety` | pset4/pt-paxos.cc:448-466 | Two replicas, at any two moments, that hold entries of one round at one slot hold the same entries at every slot up to it, trimmed slots included |
| `PaxosSafety.RunInv` | pset4/pt-paxos.cc:876-930 | The invariant holds in every state of every run of the transition system |
| `PaxosHandlers.NextKeepsInv` | pset4/pt-paxos.cc:837-848 | Every step of the cluster (delivery, loss, client request, timeout) keeps the invariant and only extends histories |
| `PaxosInvariance.LocalKeepsInv` | pset4/pt-paxos.cc:876-930 | One handler call that meets the local conditions keeps the global invariant for all replicas, leaders, votes, messages and acknowledgements |
| `PaxosHandlers.ProbeLocal` | pset4/pt-paxos.cc:681-703 | Answering a probe: one promise per replica and round, and only to a candidate whose log is up to date |
| `PaxosHandlers.PrepareLocal` | pset4/pt-paxos.cc:705-726 | Counting a promise, and taking over when they are a quorum, keeps the local conditions |
| `PaxosHandlers.ProposeLocal` | pset4/pt-paxos.cc:728-797 | Merging a batch keeps what was acknowledged, or proves that the new leader never had it |
| `PaxosHandlers.AckLocal` | pset4/pt-paxos.cc:799-835 | Acknowledgements move match and next indexes, and with them the commit index, only as far as followers have promised |
| `PaxosHandlers.ClientLocal` | pset4/pt-paxos.cc:850-874 | Serving, queueing or flushing a client request keeps the local conditions |
| `PaxosHandlers.StartProbeLocal` | pset4/pt-paxos.cc:655-679 | Starting an election keeps the local conditions, also when one vote is already a quorum |
| `PaxosHandlers.LogMatching` | pset4/pt-paxos.cc:749-781 | Logs whose entries at a slot carry the same round agree on every slot up to it |
| `PaxosHandlers.MergeFollowsLeader` | pset4/pt-paxos.cc:749-781 | After a batch is merged, through conflict truncation and re-sent overlaps, the log agrees with the leader's through the end of the batch and is either the old log or exactly the leader's prefix |
| `PaxosHandlers.CandidateUnopposed` | pset4/pt-paxos.cc:705-726 | A candidate holding a quorum of votes finds its round without a leader |
| `PaxosHandlers.ProposalsConsecutive` | pset4/pt-paxos.cc:621-645 | Every proposal ever sent carries entries for consecutive slots right after its checked prefix |
| `PaxosSpec.CommitScanIsHighest` | pset4/pt-paxos.cc:507-528 | The commit scan finds the highest slot of the current round that a quorum holds, not just some slot |
| `PaxosSpec.ApplyKeeps` | pset4/pt-paxos.cc:552-578 | Applying moves only the applied watermark, the machine and the pending bookkeeping, and ends at the commit index |
| `PaxosSpec.MergeKeepsCommitted` | pset4/pt-paxos.cc:760-766 | A merge never changes a slot at or below the commit index |
| `PaxosAgreement.CommitGuardExact` | pset4/pt-paxos.cc:784-786 | The commit rule `min(decide_through, last_log_index())` commits only the leader's entries if and only if the new commit index stays within the old one or the checked batch, or the log ends in an entry of the proposer's round: otherwise some leader log that fits all the follower can see, log matching in every round included, holds a different entry there |
| `PaxosAgreement.GuardSuffices` | pset4/pt-paxos.cc:784-786 | Under the guard the newly committed entries are the leader's |
| `PaxosAgreement.GuardNeeded` | pset4/pt-paxos.cc:784-786 | Without the guard a consistent leader log is constructed that disagrees at the slot just committed |
| `PaxosAgreement.BackedExactly` | pset4/pt-paxos.cc:784-788 | The same condition is exact for soundness: in every state every committed prefix is part of what a quorum acknowledged to the leader of some round, if and only if no follower in the run ever commits an entry that its proposing leader does not have |
| `PaxosAgreement.GuardedRunIsTruthful` | pset4/pt-paxos.cc:784-786 | A run in which every accepted proposal meets the guard, which the follower can check for itself, is such a run |
| `PaxosExact.StateMachineExactly` | pset4/pt-paxos.cc:552-578 | The exact condition of agreement, in every run: any two replicas hold, in every state, the same entries at all slots both have applied, if and only if no follower in the run ever commits an entry that its proposing leader does not have |
| `PaxosAgreement.StateMachineSafety` | pset4/pt-paxos.cc:552-578 | In the runs that meet that condition this holds also between different moments, and equal applied watermarks mean equal databases and response caches |
| `PaxosAuthority.ReplyAgreement` | pset4/pt-paxos.cc:850-857 | In every run of the code as written all real replies ever sent for one serial are equal |
| `PaxosAuthority.LeadersAgree` | pset4/pt-paxos.cc:705-726 | In every run any two leaders, of whatever rounds and at whatever moments, agree on what both have committed, and on database and responses when they have applied equally much: a replica with a stale entry below its commit index never takes over |
| `PaxosAuthority.StepKeepsAuthority` | pset4/pt-paxos.cc:837-848 | Every step keeps commit indexes within what a quorum acknowledged in a round reached, leaders' committed prefixes inside chosen ones, and every reply justified by one |
| `PaxosConduct.HandlerProper` | pset4/pt-paxos.cc:837-848 | Whatever the event, only a leader answers a client for real, and nothing committed is left unapplied |
| `PaxosAgreement.StepKeepsAgreement` | pset4/pt-paxos.cc:784-788 | Each step that commits only the leader's entries keeps committed prefixes inside chosen prefixes and every reply justified by one |
| `PaxosRealTime.LeadersServeInOrder` | pset4/pt-paxos.cc:850-874 | In every run a request first received after the reply for serial s was sent is applied by a leader only after s |
| `PaxosRealTime.RealTimeOrder` | pset4/pt-paxos.cc:850-874 | The same for every replica, in runs in which followers commit only entries their leader has |
| `PaxosCounterexample.CommitRuleUnsafe` | pset4/pt-paxos.cc:784-786 | A reachable run of three replicas, nothing forged or duplicated, in which two replicas have applied different requests at slot 17; a follower in it commits an entry its leader does not have |
| `PaxosCounterexample.RealTimeOrderFails` | pset4/pt-paxos.cc:784-786 | In that run a follower applies a request that arrived after serial 100 had been answered, and serial 100 nowhere before it |
| `PaxosCounterexample.CommitsStale` | pset4/pt-paxos.cc:784-788 | The step at fault: a re-sent first batch matches, says nothing about slot 17, and commits the stale entry there |
| `PaxosPending.OneCopyPerLeadership` | pset4/pt-paxos.cc:850-874 | In every state of every run the entries a leader appended in its round carry distinct serials, none of them also waiting in its queue, which itself repeats none |
| `PaxosPending.AppliedOnce` | pset4/pt-paxos.cc:552-566 | On every replica of every run the database is the fold of the requests over the first occurrence of each serial in the applied prefix, and the cache knows exactly the serials that occur |
| `PaxosMachine.ReplayExecutesOnce` | pset4/pt-paxos.cc:561-564 | Replaying a log executes the first occurrence of every serial and nothing else |
| `PaxosMachine.ExecutedSerialsDistinct` | pset4/pt-paxos.cc:561-564 | The executed requests have distinct serials |
| `PaxosMachine.ReplayKeepsResponses` | pset4/pt-paxos.cc:561-564 | A response once cached is what every longer log answers for that serial |
| `PaxosMachine.ApplyCommittedOk` | pset4/pt-paxos.cc:552-578 | Applying keeps database and cache equal to the replay of the applied prefix, and every reply sent is the cached one |
| `PaxosReplica.StoredRoundIsTrue` | pset4/pt-paxos.cc:409-422 | On a trimmed log the remembered boundary round and the retained entries give the round the untrimmed log has at every slot not trimmed away |
| `PaxosReplica.PrefixHeldIsTrue` | pset4/pt-paxos.cc:448-466 | The prefix test on the trimmed log accepts exactly what the test on the untrimmed log accepts, for every slot at or above the trim boundary, and nothing below it |
| `PaxosReplica.Replica.constructor` | pset4/pt-paxos.cc:304-318 | A new replica is a valid one with an empty log |
| `PaxosReplica.Replica.Initialize` | pset4/pt-paxos.cc:321-340 | The appointed replica leads round 0 from the start, the others follow it |
| `PaxosReplica.Replica.TrimLogPrefix` | pset4/pt-paxos.cc:499-505 | Trimming leaves the slots above the watermark, gap-free, and remembers the true round of the boundary entry; the abstract replica does not change |
| `PaxosReplica.Replica.UpdateCommitIndex` | pset4/pt-paxos.cc:507-528 | The counting loops find the specification's commit index |
| `PaxosReplica.Replica.UpdateTrimWatermark` | pset4/pt-paxos.cc:530-550 | The watermark only rises; when it does, it and the 256 slots above it are committed and matched by every peer; and every slot of which that is true is at or below it |
| `PaxosReplica.Replica.ApplyOne` | pset4/pt-paxos.cc:555-575 | The next slot to apply is always still in memory, so the branch for a missing slot is never taken; state and reply are the specification's |
| `PaxosReplica.Replica.ApplyCommittedEntries` | pset4/pt-paxos.cc:552-578 | The apply loop refines the never-trimming specification, replies in order |
| `PaxosReplica.Replica.CollectBatch` | pset4/pt-paxos.cc:630-639 | The batch is the next at most sixteen consecutive entries of the untrimmed log |
| `PaxosReplica.Replica.SendProposeTo` | pset4/pt-paxos.cc:621-645 | A proposal is sent exactly as the untrimmed replica would send it, from the trim boundary on |
| `PaxosReplica.Replica.FlushPendingClientRequests` | pset4/pt-paxos.cc:580-619 | Draining the queue batch by batch refines the specification: log, in-flight table, broadcasts, commits and replies |
| `PaxosReplica.Replica.StartProbeRound` | pset4/pt-paxos.cc:655-679 | Refines the specification's election start |
| `PaxosReplica.Replica.OnProbe` | pset4/pt-paxos.cc:681-703 | Refines the specification's answer to a probe |
| `PaxosReplica.Replica.OnPrepare` | pset4/pt-paxos.cc:705-726 | Refines the specification's counting of promises |
| `PaxosReplica.Replica.MergeEntries` | pset4/pt-paxos.cc:749-781 | The entry-by-entry loop, on the trimmed log, ends in the specification's merged log, or stops at the first conflict with a committed slot |
| `PaxosReplica.Replica.OnPropose` | pset4/pt-paxos.cc:728-797 | Refines the specification's handling of a proposal: refusals, back-up hints, commit bound, trim bound and acknowledgement |
| `PaxosReplica.Replica.OnAck` | pset4/pt-paxos.cc:799-835 | Refines the specification's handling of an acknowledgement, back-off included |
| `PaxosReplica.Replica.OnClientRequest` | pset4/pt-paxos.cc:850-874 | Refines the specification's handling of a client request: redirect, cached answer, duplicate, queue, flush |
| `PaxosReplica.Replica.OnTimeout` | pset4/pt-paxos.cc:876-930 | Refines the specification's reaction to an expired timer |
| `PaxosReplica.Replica.OnReplicaMessage` | pset4/pt-paxos.cc:837-848 | Every message is dispatched to the handler the transition system uses |
| `PaxosSpec.UpdateTrimIsLargest` | pset4/pt-paxos.cc:530-550 | A leader's new watermark is the largest slot that lies 256 or more below its commit index and below every entry of `match_index_`, or the old one if that is higher; nobody else's moves |
| `PaxosTrim.ForgottenIsHeld` | pset4/pt-paxos.cc:530-550 | In every state of every run, for any two replicas: all that one has trimmed the other holds, or held and trimmed, with the same entries, so no replica ever needs an entry another has trimmed |
| `PaxosTrim.EveryoneRepairable` | pset4/pt-paxos.cc:448-466 | In every state of every run, for any two replicas: the first still remembers the slot at the later of their watermarks and all after it, and the other's append check accepts a proposal that starts there |
| `PaxosTrim.LeadersTrimAll` | pset4/pt-paxos.cc:530-550 | In every state of every run a leader has trimmed each slot that it may |
| `PaxosTrim.LeadersTrimOnlyThat` | pset4/pt-paxos.cc:530-550 | In every step of every run watermarks never fall, and a replica that leads after the step moved its own only to a slot 256 or more below its commit index and below all of `match_index_` |
| `PaxosTrim.HandlerRetains` | pset4/pt-paxos.cc:790-793 | Whatever the event, a follower's watermark rises at most to that of the proposal it handles, and every proposal carries a watermark its sender has reached |
| `PaxosRepair.RepairTerminates` | pset4/pt-paxos.cc:799-835 | A leader and a follower whose logs match, and agree on what the follower has committed and the leader has trimmed, left to exchange proposals and acknowledgements from a proposal that reaches their first difference: within a bounded number of exchanges the follower holds the leader's whole log and the leader knows it |
| `PaxosRepair.RepairExactly` | pset4/pt-paxos.cc:738-747 | It ends so if and only if the first proposal does not start below the follower's watermark |
| `PaxosRepair.NewLeaderRepairs` | pset4/pt-paxos.cc:485-497 | In every state of every run this holds of a leader that starts at the end of its log, as every new leader does, and of any replica of a round not above its own that has committed only what the leader holds |
| `PaxosRepair.LeaderPaired` | pset4/pt-paxos.cc:448-466 | In every state of every run the logs of such a pair match and agree on what the leader has trimmed and on what it thinks they share |
| `PaxosRepair.RefusedExchange` | pset4/pt-paxos.cc:824-833 | A refused proposal is sent again from strictly further back, yet from no earlier than the logs' first difference and from neither side's trimmed prefix |
| `PaxosRepair.AcceptedQuote` | pset4/pt-paxos.cc:749-797 | A batch that starts where the logs agree is merged and acknowledged to its end; no agreement is lost; the follower commits what the leader has, as far as its log goes, applies it, and trims as far as the leader has and it has applied |
| `PaxosRepair.AcceptedExchange` | pset4/pt-paxos.cc:805-820 | The acknowledgement is answered with the next batch, starting further on, until there is none left |
| `PaxosRepair.BatchMerges` | pset4/pt-paxos.cc:749-781 | After a merge one log is a prefix of the other, and they agree through the batch and wherever they did before |
| `PaxosRepair.RepairedCommits` | pset4/pt-paxos.cc:784-788 | The next heartbeat lets a repaired follower commit and apply all its leader has committed, and with as much applied it has the same database and responses |
| `PaxosRepair.WinnerSpeaks` | pset4/pt-paxos.cc:705-726 | A candidate that wins sends every peer, and nobody else, a proposal from the end of its log |
| `PaxosRepair.HeartbeatSpeaks` | pset4/pt-paxos.cc:647-653 | A leader with nothing queued sends every peer, and nobody else, its next proposal when its timer expires |
| `PaxosElection.ElectionExactly` | pset4/pt-paxos.cc:655-726 | A replica that stands and has its probe answered by any list of replicas of no higher round becomes leader of the next round, log unchanged, if and only if it and those of them whose logs are no newer are a quorum; otherwise it goes on standing |
| `PaxosElection.MajorityCanElect` | pset4/pt-paxos.cc:438-446 | In any majority of replicas of one round, none of them leading, there is one that becomes leader if it stands and the others answer |
| `PaxosElection.EveryPeerAsked` | pset4/pt-paxos.cc:655-673 | A replica that stands sends its probe, with its own log tip, to every peer once and to nobody else |
| `PaxosElection.OldRoundGivesWay` | pset4/pt-paxos.cc:728-733 | A probe or a proposal of an old round changes nothing at its receiver, and the answer makes its sender a follower in the newer round, its log kept and its queue dropped |
| `PaxosElection.VoteStands` | pset4/pt-paxos.cc:689-702 | A vote once given is given again to the same candidate, changing nothing, and is refused to any other in that round |
| `PaxosService.RepliesAreSequential` | pset4/pt-paxos.cc:561-569 | In every run every real reply is what one store answers that executes the requests of a chosen prefix one after the other, each serial once |
| `PaxosService.RetryGetsSameAnswer` | pset4/pt-paxos.cc:858-862 | In every run a copy of a request that the leader it reaches has applied is answered at once, with the very response ever sent for that serial by any replica |
| `PaxosMachine.ReplayAnswers` | pset4/pt-paxos.cc:561-564 | The response cached for a serial is the one its first occurrence got, executed after the first occurrences before it |
| `PaxosService.AnswersTheWaiting` | pset4/pt-paxos.cc:565-575 | Applying as leader answers exactly the requests waiting for the slots applied, each with the cached response, and none of them waits any longer |
| `PaxosService.QuorumServesAll` | pset4/pt-paxos.cc:507-528 | When a quorum matches a leader's whole log and the last entry is of its round, the next acknowledgement makes it commit and apply all of it and answer whoever was waiting |
| `PaxosService.FlushEnters` | pset4/pt-paxos.cc:580-619 | A flush moves the whole queue into the log, in order, as consecutive entries of the leader's round |
| `PaxosService.RequestTakenUp` | pset4/pt-paxos.cc:863-873 | A new request at a leader ends the queue, or completes a batch of 16 and goes into the log with it; a copy of one under way changes nothing and gets no answer |
| `PaxosService.TimerFlushes` | pset4/pt-paxos.cc:876-885 | When a leader's timer expires, whatever is queued goes into the log |
| `PaxosRedirect.RedirectsToKnown` | pset4/pt-paxos.cc:850-857 | In every state of every run a replica that does not lead redirects all clients to one replica: a candidate to itself, a follower to one that has led a round no later than its own or got its vote in one |
| `PaxosRedirect.ProposerIsTarget` | pset4/pt-paxos.cc:735-736 | After a proposal of its own or a later round, accepted or not, a replica redirects to the leader that sent it |
| `PaxosRedirect.CandidateIsTarget` | pset4/pt-paxos.cc:691-700 | After granting its vote a follower redirects to the candidate |
| `PancyDb.Pancydb.ProcessPut` | pset4/pancydb.cc:31-45 | Put on the object does to the store's value what `Process` says, of which `PancyLaws` states the laws: conditional version check, insert or overwrite with a fresh version |
| `PancyDb.Pancydb.ProcessCas` | pset4/pancydb.cc:47-62 | Compare-and-swap, likewise, with the value check first |
| `PancyDb.Pancydb.ProcessRemove` | pset4/pancydb.cc:64-74 | Remove, likewise, with its own error for a missing key |
| `PancyDb.Pancydb.DoRemove` | pset4/pancydb.hh:97-104 | Erasing a row logs it with its version, newest first, and keeps at most 100 removals |
| `PancyDb.Pancydb.ProcessReq` | pset4/pancydb.cc:76-80 | Every request is dispatched to its handler; get answers OK with an empty value and version 0 for a missing key |
| `PancyLaws.WriteIsSeen` | pset4/pancydb.cc:31-62 | A put or compare-and-swap answers OK if and only if the stored version, and for the latter the stored value, is the one asked for; then a get returns the new value with the version answered, which no row or removal ever had, the replaced version is answered too, and every other key keeps its row |
| `PancyLaws.RemoveIsSeen` | pset4/pancydb.cc:64-74 | A removal answers OK if and only if the key is there at the version asked for; then the key is gone, a get says so, every other key keeps its row, and the removal is the newest of the log with the row as it was |
| `PancyLaws.RefusalChangesNothing` | pset4/pancydb.cc:15-21 | A refused request changes nothing and is told the stored value and version |
| `PancyLaws.GetReturnsStored` | pset4/pancydb.cc:7-13 | A get answers the stored value and version, or the empty value and version 0, always OK, and changes nothing |
| `PancyLaws.AnswersInKind` | pset4/pancydb.cc:76-80 | Every answer is of its request's kind and carries its serial |
| `PancyLaws.LastWriteWins` | pset4/pancydb.cc:31-74 | Over any history, what is read at a key is what the last mutation of it that succeeded left |
| `PancyLaws.UntouchedSince` | pset4/pancydb.cc:31-74 | ... and what was there before, if none succeeded |
| `PancyLaws.OneWinnerPerVersion` | pset4/pancydb.cc:31-74 | Of all mutations of a key in a history that ask for one existing version at most one succeeds |
| `PancyDb.ProcessKeepsDbOk` | pset4/pancydb.cc:31-74 | Every request keeps all stored versions below the next one and the removal log bounded and newest first |
| `PancyDiff.NoFalseAlarm` | pset4/pancydb.cc:102-155 | If one store's history extends the other's by at most the skew in mutations, no key is reported, even when the removal log has dropped entries |
| `PancyDiff.ExactWithoutSkew` | pset4/pancydb.cc:102-155 | With no skew two stores differ exactly when their maps do |
| `PancyDiff.ReportsExactly` | pset4/pancydb.cc:129-144 | For every skew nothing is reported if and only if each difference is explained by rows and removal logs: a shared key has the same row, or a later one from inside the window in the newer store; a key only the newer has is from inside the window or follows a row the older removed; a key only the older has was removed by the newer after a row that follows it, or the newer's log is full and does not reach back to the window |
| `PancyDiff.MismatchExactly` | pset4/pancydb.cc:119-139 | The same for one key |
| `PancyDiff.DiffNewer` | pset4/pancydb.cc:107-155 | The two-iterator loop reports nothing if and only if every difference is explained (`ReportsExactly`), and otherwise the first key in key order at which it is not |
| `PancyDiff.Diff` | pset4/pancydb.cc:102-106 | The comparison gives one verdict whichever store it is called on: nothing if and only if each difference is explained |
| `PancyDiff.FindRecentRemove` | pset4/pancydb.cc:91-100 | The scan of the removal log finds the newest matching removal inside the window |
| `PancyDiff.RecentRemovalIs` | pset4/pancydb.cc:91-100 | What the scan finds is the first match, and nothing is found exactly when there is none |
| `PancyDiff.ProcessAllLater` | pset4/pancydb.hh:97-104 | Over any history: rows are old or newer than its start, and a vanished row is still in the removal log unless the log is full of later removals |
| `DocDiamond.TransformMeaning` | pset4/doc_ops.cc:84-158 | For all in-range pairs, one operation and then the other, transformed, gives the document minus both deleted ranges plus every insert not strictly inside the other's range |
| `DocDiamond.DiamondAnywhere` | pset4/doc_ops.cc:64-158 | For any text and any two operations, in range or clamped, both orders agree if and only if a guard on the text's length and the two operations holds |
| `DocDiamond.DiamondExactly` | pset4/doc_ops.cc:84-158 | For all in-range pairs both orders give one text if and only if the two are not inserts at one position whose texts do not commute |
| `DocDiamond.SquareOverSequence` | pset4/doc_ops.cc:160-165 | For any operation and any committed sequence, in range or not, of which every step meets the guard, both ways round the square give one text |
| `DocDiamond.DiamondFailsOutOfRange` | pset4/doc_ops.cc:64-78 | A witness: out of range, clamping breaks the diamond without any tie (`DiamondAnywhere` says exactly when) |
| `DocDiamond.DiamondOverSequences` | pset4/doc_ops.cc:160-165 | For an in-range operation and any committed sequence that meets no tie, the transformed operation is in range for the final text and both ways round the square give one text |
| `DocDiamond.TransformInRange` | pset4/doc_ops.cc:84-158 | A transformed operation is in range after the other one |
| `DocOps.TransformSeq` | pset4/doc_ops.cc:160-165 | The loop is the fold of the pairwise transform |
| `DocOps.TextBuffer.ApplyOp` | pset4/doc_ops.cc:64-78 | Editing in place with clamped position and length gives the specified text |
| `Codec.RoundTrip` | pset4/doc_ops.cc:13-58 | deserialize(serialize(op)) == op, whatever the text, leading digits and spaces included, if and only if position and length fit in 64 bits |
| `Codec.DeserializeExactly` | pset4/doc_ops.cc:24-58 | Exactly the strings made of a tag, any second character and one or two numbers parse, to the operation they spell: a space after a number belongs to it, the rest of an insertion is its text, and what follows a deletion's length is ignored |
| `Codec.ReadUintLoop` | pset4/doc_ops.cc:31-46 | The digit loop reads the leading run of digits modulo 2^64, eats one space, and fails exactly when there is no digit |
| `Codec.DeserializeOp` | pset4/doc_ops.cc:24-58 | Parsing fails or yields an operation exactly as specified, error cases included |
| `Codec.KeyRoundTrip` | pset4/doc_state.cc:7-53 | Parsing the suffix of an operation key gives back client and sequence number, if and only if both fit in 64 bits |
| `Codec.ParseExactly` | pset4/doc_state.cc:19-53 | A suffix parses to a pair of numbers if and only if it is two runs of digits, one slash between them, with those values and both within 64 bits |
| `Codec.Isolation` | pset4/doc_state.cc:28-67 | No key holds an operation of two documents, whatever slashes their ids contain |
| `Codec.ComputeDelta` | pset4/static/editor.js:109-129 | Folding the computed operations over the old text gives the new one, for all strings; at most two operations, none exactly when the texts are equal |
| `Codec.DeltaWorks` | pset4/static/editor.js:121-128 | Common head and tail removed, one deletion and one insertion at the head turn one text into the other |
| `DocState.ReadOps` | pset4/doc_state.cc:55-92 | Returns exactly the parseable operations of its own document, once for every key that holds one, sorted by version, client and sequence number; with unique versions that is the one strictly ordered reading of the store |
| `DocState.Reconstruct` | pset4/doc_state.cc:94-101 | The in-place loop is the replay of the operations in order |
| `DocState.ReadsUnique` | pset4/doc_state.cc:55-92 | What a store holds of a document determines the result |
| `DocState.EarlierIsPrefix` | pset4/doc_state.cc:55-92 | While operation keys are only ever created, an earlier state's result is a prefix of a later one's |
| `DocState.CommitAppends` | pset4/doc_state.cc:7-17 | Storing an operation under its key appends it to its document's result and leaves every other document's result alone |
| `DocState.StoredIsRead` | pset4/doc_state.cc:55-79 | A stored operation is read back as itself by its document and by no other |
| `DocState.ProcessKeepsUnique` | pset4/pancydb.cc:31-74 | No two rows ever share a version |
| `DocState.SortOps` | pset4/doc_state.cc:82-90 | The sort, by version, client and sequence number, puts any list in order and keeps every element as often as it occurs |
| `DocCache.PerDocCache.RefreshOpsFromDb` | pset4/http_server.cc:170-249 | On the fast and the slow path the cache ends up with the store's operations and the text equal to their replay; the fast path keeps its rows and labels new ones by client, the slow path hands each saved label to the first row of its id and to no other; the epoch moves by one if the rows read differ from those cached, and otherwise stays |
| `DocCache.PerDocCache.RefreshFast` | pset4/http_server.cc:206-224 | The fast path moves the epoch by one if and only if it found new operations |
| `DocCache.PerDocCache.IsAppendOnly` | pset4/http_server.cc:194-204 | The loop decides whether the cached rows are a prefix of the rows read |
| `DocCache.PerDocCache.AppendNew` | pset4/http_server.cc:206-219 | Applying only the new operations gives the replay of all of them |
| `DocCache.PerDocCache.Rebuild` | pset4/http_server.cc:227-243 | A rebuild replays everything; each id's first label goes to the first row of that id and to no other, so that with distinct ids no label is lost |
| `DocCache.PerDocCache.NoteCommitted` | pset4/http_server.cc:297-343 | The first row with the operation's id gets its label if it has none; without such a row a newer operation is appended and applied and a stale one ignored; ids stay distinct and the text the replay of the rows |
| `DocCache.PerDocCache.NoteClientLabel` | pset4/http_server.cc:345-357 | Exactly the client's unlabelled rows get the label |
| `DocCache.SavedLabelsOf` | pset4/http_server.cc:231-237 | The label table holds, for every id, the label of its first labelled row, and nothing else |
| `DocCache.HistoryNames` | pset4/http_server.cc:194-204 | Within one history equal versions carry equal operations, which is what makes comparing versions enough |
| `DocCache.SameRowsReplay` | pset4/http_server.cc:243 | Labels do not affect the text |
| `DocConvergence.TextConvergence` | pset4/pt-collab.cc:954-972 | In runs in which followers commit only entries their leader has, replicas that have applied equally many entries, at whatever moments, read the same operations of every document and reconstruct the same text |
| `DocConvergence.LeaderTextConvergence` | pset4/pt-collab.cc:954-972 | In every run any two replicas, each leading when it is looked at, that have applied equally many entries show the same text of every document |
| `DocDivergence.TextConvergenceFails` | pset4/pt-paxos.cc:784-786 | The counterexample run ends with two replicas that have applied equally many entries and show different texts of one document |
| `DocConvergence.StoreReadable` | pset4/pt-collab.cc:954-966 | In every run the store of every replica has unique versions, so its documents can be read |
| `TimerHeap.Heap.Emplace` | cotamer/timer_heap.hh:157-190 | Adds one timer with the next serial at the end of the insertion order; on the way only empty timers are dropped, and what stays keeps its order |
| `TimerHeap.YoungExactly` | cotamer/timer_heap.hh:91-94 | The precondition of `emplace` is exact: the live timers a new one of equal time is ordered behind are those with serials less than 2^31 - 1 insertions old |
| `TimerHeap.Heap.HardCull` | cotamer/timer_heap.hh:193-228 | Removes exactly the element at the given position, from the heap and from the insertion order, and restores heap order, sinking or rising as needed, for every arity |
| `TimerHeap.Heap.Pop` | cotamer/timer_heap.hh:132-134 | Removes, of the timers with the least time, the one inserted first; the others keep their insertion order |
| `TimerHeap.Heap.Cull` | cotamer/timer_heap.hh:103-107 | Drops only empty timers, each earlier than all that stay; if any stays, the top is live and is the first inserted of the earliest; the others keep their insertion order |
| `TimerHeap.Heap.SiftUp` | cotamer/timer_heap.hh:181-189 | The rising loop restores heap order and permutes the elements |
| `TimerHeap.Heap.SiftDown` | cotamer/timer_heap.hh:205-220 | The sinking loop restores heap order and permutes the elements |
| `TimerHeap.Heap.Smallest` | cotamer/timer_heap.hh:207-214 | The child scan finds a child none of its siblings precede, or the element itself |
| `TimerHeap.ChildrenAreInverse` | cotamer/timer_heap.hh:115-129 | The children of slot i are exactly the slots whose parent is i, under the unusual index layout of every arity |
| `TimerHeap.TopIsEarliest` | cotamer/timer_heap.hh:91-94 | In a heap the first element is strictly earlier than every other |
| `TimerHeap.TopIsFirstOfEarliest` | cotamer/timer_heap.hh:109-113 | The top is, of the timers with the least time, the one inserted first |
| `TimerHeap.NewcomerIsLast` | cotamer/timer_heap.hh:178 | A new timer joins at the end of the insertion order, also when its serial has wrapped around |
| `TimerHeap.RemovalKeepsOrder` | cotamer/timer_heap.hh:193-228 | Removing any timer leaves the others in insertion order |
| `TimerHeap.PlugSinks` | cotamer/timer_heap.hh:199-220 | After the last element has taken a vacated slot and is not earlier than its parent, only its children may be out of order |
| `TimerHeap.PlugRises` | cotamer/timer_heap.hh:221-228 | If it is earlier than its parent, only that pair is out of order |
| `CircularInt.LessIsOlder` | cotamer/circular_int.hh:134-147 | Wrapped serials handed out less than half a cycle ago compare in the order they were handed out |
| `CircularInt.HalfCycleIsExact` | cotamer/circular_int.hh:134-147 | Of two serials the older compares before the next one, and not the other way round, exactly while it is less than half a cycle old |
| `MutexSafety.ExclusionExactly` | cotamer/cotamer.cc:277-328 | Over all interleavings of fast paths, latched sections and abandonment, in every run: exclusive holders have been alone so far if and only if no exclusive request was granted while the shared holders were a positive multiple of 2^28 |
| `MutexSafety.ExclusionBound` | cotamer/cotamer.hh:466-472 | For every bound: all runs with never more shared holders than that keep exclusive holders alone if and only if the bound is below 2^28 |
| `MutexSafety.ExclusiveIsAlone` | cotamer/cotamer.cc:277-328 | With never more than 2^28 - 1 shared holders an exclusive holder is the only holder |
| `MutexSafety.WordTellsHolders` | cotamer/cotamer.hh:466-472 | In every run, with the latch free, the word tells the exclusive holder, of which there is never more than one, the shared holders modulo 2^28, and what the head waiter wants |
| `MutexSafety.NoLostWakeup` | cotamer/cotamer.cc:281-299 | In every run, whenever the latch is free and a head waiter is still there: if it asks for shared access there is an exclusive holder, if for exclusive access there is an exclusive holder or the shared ones are not a multiple of 2^28; and when nobody holds the lock nobody waits |
| `MutexSafety.AllowedUnlessBarred` | cotamer/cotamer.cc:277-279 | The word allows a request if and only if the holders do not keep it out |
| `MutexSafety.GrantsFollowQueueOrder` | cotamer/cotamer.cc:281-299 | The waiters granted the lock are exactly the arrivals that have left the queue, in order, less the abandoned ones |
| `MutexSafety.NoOvertaking` | cotamer/cotamer.cc:301-321 | A request that never queued gets the lock only when no one is queued |
| `MutexSafety.CrowdBreaksExclusion` | cotamer/cotamer.hh:466-472 | The run behind the bound: 2^28 shared holders wrap the count to 0 and an exclusive request succeeds beside them all |
| `MutexSafety.LatchExcludes` | cotamer/cotamer_impl.hh:2102-2147 | While the latch is taken no fast path can succeed and no second thread can take it |
| `MutexSafety.StepKeeps` | cotamer/cotamer.cc:277-328 | Every step keeps the word's count of holders, wake-ups and queue order |
| `MutexLatch.TestsReadFields` | cotamer/cotamer_impl.hh:2102-2147 | Every test the code makes on the 32-bit word reads the bit or count it is meant to read |
| `MutexLatch.ArithmeticMovesFields` | cotamer/cotamer.cc:281-328 | Every addition and subtraction on the 32-bit word changes the field it is meant to change, wrap-around of the count included |
| `MutexLatch.AllowReadsFields` | cotamer/cotamer.cc:277-279 | `allow` on the number means: no exclusive holder, and for an exclusive request no shared one |
| `MutexCode.Mutex.TryLock` | cotamer/cotamer_impl.hh:2102-2105 | Succeeds exactly when the latch is free, there is no exclusive holder, and the shared holders count as none; below 2^28 of them that means nobody holds the lock |
| `MutexCode.Mutex.TryLockShared` | cotamer/cotamer_impl.hh:2129-2135 | Succeeds exactly when the latch is free, nobody is queued and there is no exclusive holder |
| `MutexCode.Mutex.Unlock` | cotamer/cotamer_impl.hh:2107-2115 | Fast or slow, the release is a step of the model, and a head waiter that is still there is one the holders keep out: a shared one only beside an exclusive holder |
| `MutexCode.Mutex.UnlockShared` | cotamer/cotamer_impl.hh:2137-2147 | Likewise for a shared holder |
| `MutexCode.Mutex.Latch` | cotamer/cotamer_impl.hh:2153-2162 | Takes the latch and returns the word without the next-in-line bits |
| `MutexCode.Mutex.Unlatch` | cotamer/cotamer_impl.hh:2164-2169 | Publishes the new word with the bit that describes the head waiter |
| `MutexCode.Mutex.NotifyLocked` | cotamer/cotamer.cc:281-299 | The loop takes only model steps; it stops at an empty queue or at a waiter that the holders keep out |
| `MutexCode.Mutex.LookAtHead` | cotamer/cotamer.cc:282-288 | An abandoned head waiter is dropped; one that is there stops the loop if and only if the holders keep it out |
| `MutexCode.Mutex.TriggerHead` | cotamer/cotamer.cc:289-296 | A waiter that is still there when it is triggered is granted the lock and counted; one that has gone in the meantime is not |
| `MutexCode.Mutex.LockImpl` | cotamer/cotamer.cc:301-321 | Either the request holds the lock and nobody waits, or it is last in the queue; alone in the queue it is kept out by the holders |
| `MutexCode.Mutex.FinishLock` | cotamer/cotamer.cc:304-321 | The request gets the lock exactly when the queue is empty and the holders do not keep it out, else it queues up |
| `MutexCode.Mutex.UnlockImpl` | cotamer/cotamer.cc:323-327 | Releases the caller and wakes waiters in order, until the queue is empty or the holders keep its head out |
| `WatchSet.FdEventSet.TakeWatchList` | cotamer/cotamer_impl.hh:1877-1913 | Splits the chain, in order and with the right head and tail: taken are exactly the watches that are abandoned or wait for one of the given events, kept the others; marks the fd exactly when something was taken; does nothing for a stale epoch |
| `WatchSet.FdEventSet.DetachFrom` | cotamer/cotamer_impl.hh:1886-1912 | The body of the split on the whole table, with the detached chain under a new ticket |
| `WatchTable.SplitChain` | cotamer/cotamer_impl.hh:1891-1907 | The link-rewriting walk produces two properly terminated chains that are the two filtered subsequences, and touches nothing else |
| `WatchSet.FdEventSet.PopWatchListEvent` | cotamer/cotamer_impl.hh:1915-1925 | The head slot of a detached chain goes to the front of the free list and its event is handed out once; a mask that is not empty is read back from the event's user flags, and no other flag changes |
| `WatchSet.EventBodies.SetUserFlags` | cotamer/cotamer_impl.hh:449-458 | The mask is read back from the four user flags as it was set, and neither another flag of the event nor another event changes |
| `WatchSet.FdEventSet.PopUpdate` | cotamer/cotamer_impl.hh:1943-1959 | Takes the head of the update list and answers, event by event, exactly what some watch that is not abandoned still waits for; the epoch moves on if and only if nothing is awaited, or to 2 from below; the chain is recorded as seen |
| `WatchSet.FdEventSet.WatchListMask` | cotamer/cotamer_impl.hh:1931-1941 | An event is in the answer if and only if some watch on the chain is for it and is not abandoned; the answer is empty if and only if nothing is awaited |
| `WatchSet.FdEventSet.ActiveWatchCount` | cotamer/cotamer_impl.hh:1978-1984 | Counts exactly the slots that are not on the free list |
| `WatchSet.FdEventSet.Watch` | cotamer/io.cc:116-167 | A new watch joins the end of its fd's chain in a free or new slot and the fd is marked; a descriptor that changed hands has its old watches triggered first |
| `WatchSet.FdEventSet.AppendWatch` | cotamer/io.cc:145-166 | The slot comes off the free list or the end of the vector and is linked behind the tail |
| `WatchSet.FdEventSet.FdClose` | cotamer/io.cc:169-193 | Every event of the chain is triggered in order and its slot freed; epoch, body and update list follow; nothing for an unknown or open descriptor |
| `WatchSet.FdEventSet.DrainChain` | cotamer/io.cc:179-186 | The loop frees the slots of the chain one by one, in order |
| `WatchSet.FdEventSet.HardEnsure` | cotamer/io.cc:44-66 | Growing adds empty records and changes no chain |
| `WatchSet.NewCapacity` | cotamer/io.cc:46-55 | The chosen capacity exceeds the descriptor: whole blocks for large ones, doubling below |
| `WatchSet.FdEventSet.ListUpdate` | cotamer/cotamer_impl.hh:1908-1911 | An fd is put on the update list unless it is there |
| `WatchSet.MarkedOk` | cotamer/event_handle.hh:122-152 | Marking an fd makes good a change to its chain: it is on the update list, once |
| `WatchSet.MaskIsAwaited` | cotamer/cotamer_impl.hh:1931-1941 | The union of masks holds an event if and only if some slot of the chain has an event that is not abandoned and a mask with it |
| `WatchSet.TakesTheRipe` | cotamer/cotamer_impl.hh:1893-1899 | The two halves of a split are the abandoned or matching watches of the chain, and the others |
| `WatchSet.PoppedOk` | cotamer/cotamer_impl.hh:1943-1959 | Popping keeps the update list free of repeats and every fd off it with a chain unchanged since its last pop |
| `WatchSet.TakenOk` | cotamer/cotamer_impl.hh:1877-1913 | Taking something marks the fd; taking nothing leaves its chain as it was |
| `WatchSet.RecycledOk` | cotamer/cotamer_impl.hh:1915-1925 | Freeing the head slot of any chain keeps the whole table consistent |
| `WatchSet.JoinedOk` | cotamer/io.cc:145-162 | Appending a watch keeps the whole table consistent |
| `WatchSet.GrownOk` | cotamer/io.cc:44-66 | Growing the record array keeps the whole table consistent |
| `WatchLists.SplitPartition` | cotamer/cotamer_impl.hh:1891-1907 | Splitting a chain keeps every slot in exactly one list, once |
| `WatchLists.MoveHeadPartition` | cotamer/cotamer_impl.hh:1915-1925 | Moving a head slot to the free list keeps every slot in exactly one list, once |
| `WatchLists.ReusePartition` | cotamer/io.cc:145-162 | Moving a free slot to the end of a chain keeps every slot in exactly one list, once |

## Left out

- PaxosAgreement.StateMachineSafety: stated for runs in which followers commit only entries their leader has, which is the exact condition (`StateMachineExactly`).
- PaxosRealTime.RealTimeOrder: for followers stated for the same runs, because in others it can fail (`RealTimeOrderFails`); for leaders it is stated for every run (`LeadersServeInOrder`).
- DocConvergence.TextConvergence: likewise (`TextConvergenceFails`, `LeaderTextConvergence`).
- Liveness of runs: that timers expire and messages arrive often enough; timers are nondeterministic steps. What a campaign or a repair achieves once its messages do arrive is proved (`ElectionExactly`, `RepairExactly`).
- PaxosRepair.NewLeaderRepairs: the pair is left to itself, the leader starts from the end of its log, and the follower has committed only what the leader holds, because a stale committed entry is never replaced (`CommitRuleUnsafe`).
- PaxosElection.MajorityCanElect: for replicas that have come to one round, as `OldRoundGivesWay` makes them; colliding candidates are not modelled.
- Failure schedules, random sources, loss probabilities, command lines: the network model covers every schedule.
- The replica's twenty fields are grouped in five records in `PaxosReplica.Replica`, and its database is held as a value rather than as a `Pancydb` object; the two are tied by the same function `Process`.
- `pset4/pt-collab.cc`: its replica is a copy of the one modelled, so it is not modelled a second time.
- Coroutine machinery, task promises, reference counts, quorum events and cross-thread migration; an event is waiting, abandoned or granted.
- MutexCode.Mutex.Latch: called once the latch bit is clear; the spin loop before it, which only reads, is not modelled, and neither is a failed compare-and-swap that is tried again.
- MutexCode.Mutex.Unlock: likewise called with the latch free, as are `UnlockShared`, `LockImpl` and `UnlockImpl`; what other threads do meanwhile is covered by the transition system.
- The `bool*` notification of a lock request, which only tells the guard object that it owns the lock.
- MutexSafety.ExclusiveIsAlone: stated for runs with fewer than 2^28 shared holders at once, because with more the 32-bit word wraps and the property is false (`ExclusionBound`).
- TimerHeap.Heap.Emplace: stated while no live serial is 2^31 - 1 or more insertions old, because older ones compare the wrong way round (`YoungExactly`).
- WatchSet.FdEventSet.Watch: requires an evicted body to be closed, because the code dereferences the result of `fd_close` without a test.
- Epochs of the watch table are unbounded numbers, and slot numbers stay below the 32-bit sentinel.
- `driver::apply_fd_update` (packed nibbles of kernel masks), kernel notifiers, sockets and `next_known`.
- Two's-complement details of `version_type`, and any other 64-bit overflow except in `Codec`.
- `refresh_cursors_from_db`, cursor caches, the document registry, JSON, HTTP and SSE.
- The browser's optimistic queue and the client models: convergence of the optimistic view is not a property of that code.
- `lockseq_model`, logging, formatting and memory layout.
