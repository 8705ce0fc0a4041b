# A verified model of the Essentials' own machinery

The Essentials drive a matrix of transports and content contracts through a
cluster of nodes and judge what comes back. This project models the machinery
that has to be right for those judgements to mean anything, and proves what it
promises over every run.

- **Exclusive pickup** (`Pickup`, `PickupSafety`, `PickupReach`, `PickupPasses`,
  `PickupJoin`, `PickupRuns`, `ExclusiveClaim`, `WinnerSigns`, `SettleOrder`). Any number of honest and broken readers, from any number of
  processes, race over lanes of items by creating locks, reading, signing and
  removing files. The file system is a map from name to content, a reader a
  program counter, a run any interleaving of single file operations. The judge
  decides from the signatures alone.
- **The message path** (`Bytes`, `Contracts`, `Handoffs`, `FileNames`,
  `Inboxes`, `InboxSafety`, `InboxClaims`, `InboxRefines`, `Stages`, `Rosters`, `Workers`, `Driver`, `Shares`,
  `Relays`, `RelayPath`, `RelayRounds`, `RelayOrigin`, `Tallies`, `Ledgers`). Three stages over
  many nodes, inboxes written by rename and claimed by rename, a stable partition
  of the matrix under a rotating cursor, a driver of several threads, and a
  ledger that has to equal its history.
- **Cluster supervision** (`Livenesses`, `Members`, `Beats`, `BeatFiles`,
  `Clusters`, `Supervision`, `Heartbeats`). Hangs judged by beats alone, the view kept between changes, and
  the publication parsed once a round.
- **Whole-run accumulators** (`Retentions`, `RetentionRuns`, `RetentionDays`, `Backlogs`,
  `BacklogRuns`, `BacklogRace`, `Rings`, `Subscribings`, `Rotations`,
  `HandoffLinks`, `PathLinks`).

Code that changes state is a class whose methods are proved against functions on
values; what holds over whole runs is proved of those functions. Clocks, listings,
what a transport or a contract says, whether a write succeeds and the bits of a
hash are parameters and are free. Several functions that the proofs do not look
into (how a handoff is written, whom a pair hashes to, which sweeps are missed, how
a beat's text is read) are fields of function type, so the results hold for every
such function; `RouteOf` and `Posted` put the real ones in.

`dafny verify dfyconfig.toml` checks everything.

## What turned out false of the code, and what holds instead

- `settle` takes the ledger before it lists the lane. Its own readers are joined by
  then, but an honest reader of another lane that shares this one may hold an item
  read and not yet signed: the ledger lacks it, the item goes, the listing is empty
  and the drained lane is judged Missed (`SettleOrder.LedgerFirstMisses`). The order
  tells the truth exactly when there is no such reader, or an owner of the lane
  dropped its claim and so signs everything itself
  (`SettleOrder.LedgerFirstExactly`); the other order always does
  (`ExclusiveClaim.ListThenLedger`).
- Holder names recur over rounds and restarts. The record on a consumed item is its
  winner's own in every run exactly when no broken reader that scans the lane has
  the name of an honest one that does (`WinnerSigns.WinnerSignsExactly`), and the
  readers of two rounds of one process are such a pair
  (`WinnerSigns.NamesRecurOverRounds`). A record caught between its creation and its
  writing reads as not injected (`PickupSafety.TwoHoldersAreInjected`).
- `Roster::capability` ignores case where `Roster::with` does not. Two names that
  differ in case only can send a pair to a node that does not serve the next stage
  (`Rosters.AlikeNamesMislead`, exactly when: `Rosters.TargetServes`). A receiver
  named twice leaves indices of the matrix nobody receives
  (`Rosters.EveryIndexReceived`).
- A file name that recurs while the first still waits overwrites it: an inbox loses
  nothing in any run exactly when no two of its handoffs have one name
  (`InboxSafety.AlikeNamesLose`, `InboxSafety.ConservedExactly`). A backlog
  directory that holds a name its drain has yet to use loses count: from one of the
  first round's names on every run falls short (`BacklogRuns.RecurringIdLosesCount`),
  and among any number of drains the sum is kept in every run exactly when none of
  their own names stands there at the start (`BacklogRace.RaceConservedExactly`).
- The node beats a round whose publication it could not write, so a parse at count
  r can be of an earlier round (`Heartbeats.FailedIsBeatenAllTheSame`). It is of
  round r or later exactly when some round from r to the last tried by then could be
  written (`Heartbeats.ParsedIsNoOlder`). `restarted` keeps `read_at`, so over a
  restart one publication can be skipped (`Members.RestartMaySkip`).
- A beat is heard by its text changing. A node whose beats are all in time, caught
  twice at the same half-written text and not otherwise, is restarted
  (`Beats.TornTwiceIsDeaf`, on a disk: `BeatFiles.TornTwiceOnDisk`). That is the one way it can be: a whole beat always
  tells, so every beat is heard exactly when no torn one shows the text held
  (`BeatFiles.AudibleExactly`).
- Over resumes a delivered item goes past an earlier one of its Subscription that
  stays, exactly when that one was readable and was not both handed on and written:
  handed on and not written, it is handed on a second time; not handed on, it is kept
  as failed and arrives after what came later (`Subscribings.OvertakenExactly`,
  `Subscribings.BothWaysOfOvertaking`).
- A node that never beats is not always restarted at the first judgement past its
  allowance: nothing clears the beat file of a former life, and reading what is left
  there, where it is not the text held, counts as a beat. Exactly when it is
  restarted: `Beats.SilentIsRestarted`; put off: `Beats.LeftoverPutsOff`.
- A handoff whose transport or sender holds a space or a line break does not read
  back as written (`Handoffs.RoundTrip`), and a transport can spell out another
  handoff, which is then what is read (`Handoffs.SpacedTransportMisleads`).
- A cluster of no nodes never assembles a view (`Clusters.Cluster.EmptyNeverAssembles`).
- A Party is struck on a side always the same way, a whole transport or one stream,
  in every round of the rotation (`Rotations.KindIsFixed`).

## Model

| member | source | states |
|---|---|---|
| `PickupSafety.NextInv` | src/exclusive_claim/pickup.rs:79-128 | every file operation of every reader, honest or broken, keeps the locks, the records and the items accounted for |
| `PickupSafety.Reachable` | src/exclusive_claim/pickup.rs:42-128 | that account holds in every state of every interleaving |
| `PickupSafety.OneHonestHolder` | src/exclusive_claim/pickup.rs:79-128 | mutual exclusion: two honest readers never both sign one item, whoever else is broken |
| `PickupSafety.GoneIsSigned` | src/exclusive_claim/pickup.rs:111-128 | in every system an item that left its lane has an honest winner and a record under that winner's name; whose record it is, `WinnerSigns.WinnerSignsExactly` decides |
| `PickupSafety.TwoHoldersAreInjected` | src/exclusive_claim.rs:233-263 | two holders of one item: one record is a broken reader's and says so, or is being written |
| `PickupReach.ReachAlways` | src/exclusive_claim/pickup.rs:62-74 | in every state of every run each lock and record of a lane was made by a reader that scans it, and a private reader scans its own lane only |
| `PickupPasses.StopsForAReason` | src/exclusive_claim/pickup.rs:42-58 | in every run a reader stops only with its own lane found empty or its passes used up, and makes no more than sixty-four, one where its claim was dropped |
| `PickupPasses.LaneHoldsSix` | src/exclusive_claim/pickup.rs:135-151 | a lane is staged with three items of each of two keys |
| `PickupJoin.JoinReachable` | src/exclusive_claim/pickup.rs:42-107 | in every state, what each reader has tried, swept, dated and sequenced so far |
| `PickupJoin.JoinedLaneIsDrained` | src/exclusive_claim/pickup.rs:42-58 | once the readers that scan it are joined, the lane of an honest reader is empty and every item signed under its lock's winner |
| `PickupJoin.JoinedBreachIsTotal` | src/exclusive_claim/pickup.rs:103-128 | with the claim dropped by all that scan a lane, every owner has signed every item of it, injected, and none has left |
| `PickupJoin.BrokenLeavesRecords` | src/exclusive_claim/pickup.rs:103-128 | a broken reader that finished leaves every item of its lane recorded, by itself or by the winner that consumed it |
| `PickupJoin.OnwardDescends` | src/exclusive_claim/pickup.rs:42-107 | a reader that is not finished always has a step that brings it nearer its end |
| `PickupJoin.Finish` | src/exclusive_claim/pickup.rs:42-58 | any reader run alone reaches its end, and no other's place moves |
| `ExclusiveClaim.Holders` | src/exclusive_claim.rs:233-242 | exactly the items of the ledger, each with exactly its holders |
| `ExclusiveClaim.SortByOrder` | src/exclusive_claim.rs:293-296 | the records' places in a stable sort by order |
| `ExclusiveClaim.LastSeen` | src/exclusive_claim.rs:297-307 | comparing each item with its key's last one decides every pair of one key |
| `ExclusiveClaim.OrderedPerKey` | src/exclusive_claim.rs:293-307 | true exactly when every same-key pair of records is in sequence |
| `ExclusiveClaim.Judge` | src/exclusive_claim.rs:251-290 | the verdict is the one the ledger's contents call for: contended, missed, out of order or held |
| `ExclusiveClaim.OneHolderEach` | src/exclusive_claim.rs:187-201 | at the join of honest readers over a lane each of its items has exactly one holder |
| `ExclusiveClaim.KeysInOrder` | src/exclusive_claim/pickup.rs:90-98 | at every join of honest Sequential readers each key is in sequence |
| `ExclusiveClaim.HeldAtTheJoin` | src/exclusive_claim.rs:171-201 | once the honest readers that scan a lane are joined, wherever all others are and for every order of the ledger, the verdict is Held |
| `ExclusiveClaim.ContendedWithoutTheClaim` | src/exclusive_claim.rs:251-263 | with the claim dropped by all that scan a lane and two owners of different names, the verdict at their join is an injected contention |
| `ExclusiveClaim.EveryRunCanJoin` | src/exclusive_claim.rs:187-201 | no run is stuck: every run can be continued to its join |
| `ExclusiveClaim.ListThenLedger` | src/exclusive_claim.rs:206-216 | listing first and taking the ledger after, a drained lane is never judged missed, whatever happens in between |
| `SettleOrder.LedgerFirstIsComplete` | src/exclusive_claim.rs:206-216 | the ledger taken once the owners are joined, before an empty listing: complete where no outsider shares the lane, or an owner is broken |
| `SettleOrder.LedgerFirstMisses` | src/exclusive_claim.rs:206-216 | with an outsider and honest owners, a run that drains the lane after its ledger was taken and is judged Missed |
| `SettleOrder.LedgerFirstExactly` | src/exclusive_claim.rs:206-216 | a drained lane is never judged Missed, in any run, exactly under that condition |
| `WinnerSigns.WinnerSigned` | src/exclusive_claim/pickup.rs:111-128 | where no broken and honest reader over a lane sign alike, whatever is gone carries its winner's own record |
| `WinnerSigns.RecurringNameHidesTheWinner` | src/exclusive_claim/pickup.rs:111-128 | for every such pair a run in which the honest one consumes an item that carries only the broken one's injected record |
| `WinnerSigns.WinnerSignsExactly` | src/exclusive_claim/pickup.rs:79-128 | in every run what is gone from a lane carries its winner's own record, exactly when no such pair scans it |
| `WinnerSigns.NamesRecurOverRounds` | src/exclusive_claim.rs:187-201 | two rounds of one process are such a pair over another process's lane, in either style |
| `Contracts.NamedName` | src/verdict.rs:153-176 | every contract is found again by its name |
| `Contracts.NamedExactly` | src/handoff.rs:71-72 | a name is found as a contract exactly when it is the one the contract is called by |
| `Handoffs.RoundTrip` | src/handoff.rs:49-84 | a handoff reads back as written exactly when its transport and sender hold no space and no line break, whatever its bytes |
| `Handoffs.TornIsRefused` | src/handoff.rs:63-84 | no proper prefix of an encoding reads back as anything |
| `Handoffs.DecodesExactly` | src/handoff.rs:63-84 | bytes read back as a handoff exactly when they are clean words that spell it, a line break and its payload: the magic word, its transport, contract, round, sender and length, and whatever words follow |
| `Handoffs.SpacedTransportMisleads` | src/handoff.rs:49-84 | a transport that spells out another handoff's fields is read back as that other handoff |
| `Bytes.ParsesExactly` | src/handoff.rs:73-75 | a word parses to a number of 64 bits exactly when it is that number's digits, zeros before them or not, perhaps after a plus |
| `FileNames.PaddedFits` | src/handoff.rs:110-124 | a number that fits ten digits is printed as ten and reads back |
| `FileNames.NamesSortByRound` | src/handoff.rs:131-140 | of two different rounds that fit ten digits the earlier one's names are before, and only they |
| `FileNames.NamesSortByCount` | src/handoff.rs:110-140 | within a round one sender's names stand in the order it sent them |
| `FileNames.LessExactly` | src/handoff.rs:140 | a name is before another exactly where, at the first place they differ, it is smaller or over |
| `FileNames.NamesTellSenders` | src/handoff.rs:110-124 | names are alike only from one sender's one count in one round, and of one pair where transports are apart |
| `InboxSafety.Reachable` | src/handoff.rs:110-160 | every interleaving of deliverers and claimers keeps every file accounted for |
| `InboxSafety.Conserved` | src/handoff.rs:110-171 | delivered is waiting, in hand and returned together, and the three are disjoint |
| `InboxSafety.ReturnedOnceWhole` | src/handoff.rs:131-160 | what a claim returns is what was delivered, and no other claim or place returns it |
| `InboxSafety.NothingTorn` | src/handoff.rs:110-160 | no half-written file is ever ready, and no claim takes an unreadable one |
| `InboxSafety.OldestFirst` | src/handoff.rs:131-160 | one claim returns rounds in non-decreasing order while rounds fit ten digits |
| `InboxClaims.ClaimAlone` | src/handoff.rs:131-160 | a claim run alone from any state returns, of the first names listed up to its limit, every handoff that waited and reads back, in that order; counts the others that waited; and those files are gone and nothing else is touched |
| `InboxClaims.ClaimEmpties` | src/handoff.rs:131-171 | from every state of every run a claim with room for the listing returns all that waits and leaves nothing |
| `InboxSafety.PostedIsReadable` | src/handoff.rs:49-84 | handoffs of clean names meet the protocol's condition on contents |
| `InboxSafety.PostedIsDistinct` | src/handoff.rs:110-124 | senders apart and counts that do not recur meet its condition on names |
| `InboxSafety.AlikeNamesLose` | src/handoff.rs:110-124 | two deliveries under one name leave one file |
| `InboxSafety.ConservedExactly` | src/handoff.rs:110-171 | in every run as many were sent as wait, are in hand or were returned, exactly when no two have one name |
| `Rosters.RefusedExactly` | src/roster.rs:165-227 | a roster is refused exactly when some stage is served and some is not |
| `Rosters.MayRelayExactly` | src/roster.rs:165-227 | a relay may run exactly where its node declared the stage and every stage is served |
| `Rosters.RolesAreApart` | src/roster.rs:155-161 | each role serves its own stage and no other, and executing serves all |
| `Rosters.ServingSplits` | src/roster.rs:155-161 | the servers of a stage stand in the roster's order, each as often as it is there |
| `Rosters.ServingOne` | src/roster.rs:155-161 | and a roster of one node has it at a stage exactly where it declared that |
| `Rosters.OneReceiver` | src/roster.rs:232-238 | no two nodes take one index of the matrix |
| `Rosters.EveryIndexReceived` | src/roster.rs:232-238 | every index is taken exactly when somebody receives and no receiver is named twice |
| `Rosters.TargetServes` | src/roster.rs:246-265 | a target is always found, and serves the next stage exactly when the lookup does not wrongly call the sender executing |
| `Rosters.TargetServesDistinct` | src/roster.rs:210-265 | with names distinct whatever their case it always serves it |
| `Rosters.TargetIsShared` | src/roster.rs:246-265 | unless the sender's lookup calls it executing, each server is chosen by exactly the hashes that fall to its place, whoever the sender is |
| `Rosters.ExecutingKeeps` | src/roster.rs:246-265 | an executing node of a roster of distinct names keeps a pair through every stage |
| `Rosters.CapabilityIsFirst` | src/roster.rs:130-135 | the lookup gives the first node alike in name, or none |
| `Rosters.AlikeIsCaseOnly` | src/roster.rs:130-135 | names are alike exactly when they differ in the case of ASCII letters only |
| `Rosters.AlikeNamesMislead` | src/roster.rs:130-135 | two names that differ in case only send a pair where nobody processes |
| `Workers.GoesRound` | src/schedule/workers.rs:48-62 | everything driven over the rounds is the share repeated from its start, no gap and no overlap |
| `Workers.CursorFollows` | src/schedule.rs:185-188 | the cursor is what was driven so far, modulo the share |
| `Workers.DrivenLength` | src/schedule/workers.rs:48-62 | t rounds drive t times the bounded count |
| `Workers.Fair` | src/schedule.rs:185-188 | after t rounds each pair was driven the average number of times, rounded down or up by its place |
| `Workers.NeverTwice` | src/schedule/workers.rs:48-62 | no pair is driven twice in one round |
| `Workers.WholeRound` | src/schedule/workers.rs:48-62 | a round with no bound, or one the pairs fit, drives each pair as often as it stands there |
| `Shares.MatrixDiffers` | src/schedule/workers.rs:39-43 | the matrix names no pair twice |
| `Shares.MatrixIs` | src/schedule/workers.rs:39-43 | every transport with every contract stands in the matrix at its place, and nothing else does: transports times twenty |
| `Shares.ShareHolds` | src/relay/judging.rs:20-28 | a node's share holds a pair exactly when the node receives its index, and none twice |
| `Shares.ShareIs` | src/relay/judging.rs:20-28 | a receiver's share is the matrix's pairs from its place on, one in as many as there are receivers, in order |
| `Shares.EveryPairHasItsTurn` | src/relay/judging.rs:20-28 | for every transport and every contract: the node that receives that pair drives it fairly and never twice in a round, and nobody else drives it |
| `Shares.SomebodyDrivesIt` | src/relay/judging.rs:20-28 | where no receiver is named twice, for every transport and every contract some node drives the pair fairly and nobody else does |
| `Driver.JoinGathersAll` | src/schedule/workers.rs:88-121 | for every worker count and interleaving, every item's judgement is gathered |
| `Driver.JoinIsComplete` | src/schedule/workers.rs:88-121 | each place is gathered once, with the judge's answer to its item |
| `Driver.DrivesInOrder` | src/schedule/workers.rs:88-121 | sorted by place, the result is the judge mapped over the items in their order |
| `Driver.EveryRunJoins` | src/schedule/workers.rs:88-121 | no run is stuck: every one can be continued to its join |
| `Relays.Running.constructor` | src/relay.rs:94-137 | a relay exists only at a stage its node declared on a roster that is not refused, and starts from nothing |
| `Relays.Running.NextPairs` | src/relay/judging.rs:20-28 | a round receives the slice of the node's share at the cursor, and the cursor moves past it |
| `Relays.Running.DrainInbox` | src/relay/judging.rs:57-60 | what the listing shows, up to the bound, is claimed into hand or counted unreadable |
| `Relays.Running.HandOnTo` | src/relay.rs:278-291 | the file put into the target's inbox, the count taken and the hop recorded, or nothing but the count |
| `Relays.Running.SettleOne` | src/relay.rs:230-251 | one pair handed on and folded, failed where it could not be handed on |
| `Relays.Running.Tick` | src/relay.rs:221-251 | what was judged is settled in order, with nothing left in hand |
| `Relays.Running.Work` | src/relay/judging.rs:57-92 | a later stage's whole round: every handoff claimed is judged by its own fault and contract, and settled |
| `Relays.Running.Receive` | src/relay/judging.rs:20-53 | a receive stage's whole round: every pair of the slice is settled as it arrived, under its own transport and contract and this round's number |
| `RelayPath.RouteServes` | src/roster.rs:210-265 | on a distinct roster that is not refused, whoever declared a stage finds a node serving the next |
| `RelayPath.HandOnHops` | src/relay.rs:278-291 | handing on finds a node of the next stage and its file falls on no other |
| `RelayPath.SettleShifts` | src/relay.rs:221-291 | a settled pair moves one delivery, one hop and one waiting file together, or none of them |
| `RelayPath.StepInv` | src/relay.rs:221-291 | every step of every node keeps deliveries, hops and what reached the next stage equal, node by node and in all |
| `RelayPath.PathConserved` | src/relay.rs:221-291 | over every run: deliveries are hops, and hops are the next stage's verdicts, unreadable and waiting together |
| `RelayPath.EachTargetConserved` | src/relay.rs:278-291 | the same for every single node, and nobody is handed to who does not serve the stage |
| `RelayOrigin.EveryHandoffArrived` | src/relay/judging.rs:20-92 | over every run each handoff in hand, and what each file of an inbox reads as, has the transport, contract, round and bytes of one whole arrival of the run; its sender is the node that sent it to this stage, and it is at the node its hash falls to |
| `RelayOrigin.NothingIsMadeUp` | src/relay/judging.rs:37-41 | so whatever a stage has in hand some node received |
| `RelayOrigin.DeliveredIsWhatHeld` | src/relay/judging.rs:31-92 | over every run a stage has judged just what arrived or was in its hand, and delivered just what no fault struck, what held and, before the last stage, was written on |
| `RelayOrigin.TakeComesTo` | src/relay/judging.rs:57-60 | at any moment of any run one claim takes one file, last into the hand or counted unreadable, and moves nothing else |
| `RelayRounds.DrainIsARun` | src/relay/judging.rs:57-60 | draining an inbox is a run of the path's steps |
| `RelayRounds.RoundIsARun` | src/relay.rs:221-251 | a later stage's whole round is a run of the path's steps |
| `RelayRounds.ReceiveIsARun` | src/relay/judging.rs:20-53 | a receive stage's whole round is a run of the path's steps |
| `RelayRounds.PairsArrive` | src/relay/judging.rs:20-53 | the events of that run: each pair driven, under its own names and the round's number, as it came |
| `RelayRounds.NothingUnreadable` | src/relay/judging.rs:57-60 | where no name holds a space or a line break nothing is unreadable in any run |
| `RelayRounds.KeysAreNames` | src/handoff.rs:110-124 | in every run of clean names each file holds the handoff its sender delivered under its count, and two files of one inbox differ by the names those give, while senders' names are apart and rounds and counts fit ten digits |
| `InboxRefines.EveryStepRefines` | src/handoff.rs:110-160 | every step of every run of the inbox protocol leaves what waits and what is in hand alone, files one handoff whole under a fresh name, or takes one into one hand |
| `InboxRefines.FilingIsHandingOn` | src/relay.rs:278-291 | filing one is the path's single step of handing on |
| `InboxRefines.TakingIsClaiming` | src/handoff.rs:131-160 | taking one is the path's single step of claiming, what was under the name in hand as it reads |
| `Tallies.SeverityFollowsTheRate` | src/schedule/tally.rs:80-87 | the severity of a passing pair is in 1..80 and never falls as the failure ratio rises |
| `Tallies.SeverityIsTheRate` | src/schedule/tally.rs:80-87 | it is at least s exactly when the failures are at least s in eighty of the rounds, and never under one |
| `Tallies.OverTimeTells` | src/schedule/tally.rs:38-76 | which tallies read Fine and which Done, and that failing now reads worse than not and never failed milder than all |
| `Tallies.EvidenceIsTheCount` | src/schedule/tally.rs:38-76 | the counts in a record's words are the tally's and its reason the last outcome's; the severity where nothing passed |
| `Ledgers.TalliedNext` | src/schedule/tally.rs:24-32 | folding one more verdict keeps every tally the count over its history |
| `Ledgers.TrackedNext` | src/schedule/ledger.rs:63-109 | and every line's throughput, an identity point never counted in it |
| `Ledgers.PublishedIsHistory` | src/schedule/ledger.rs:123-161 | the counts published are the deliveries, failures and bytes of the history, bytes where a line sends |
| `Ledgers.HistoryAdds` | src/schedule/ledger.rs:63-109 | the sums over two histories are those of each together, and the last outcome is the later one's |
| `Ledgers.OneVerdict` | src/schedule/ledger.rs:63-109 | the sums of one verdict: a round and its failure at its own scope, and on its own transport's line, unless an identity step's, an item with its bytes where it sends, or a failure |
| `Ledgers.Ledger.constructor` | src/schedule/ledger.rs:45-53 | an empty ledger is its empty history |
| `Ledgers.FoldedIs` | src/schedule/ledger.rs:63-109 | what one verdict makes of sums that are their history's: sums that still are, and a standing over it |
| `Ledgers.Ledger.Fold` | src/schedule/ledger.rs:63-109 | one verdict folded: the ledger is still its history, and the pair's record is its standing over it |
| `Ledgers.Ledger.FoldAll` | src/relay.rs:248-250 | a round folded: every record on the board is its scope's standing |
| `Ledgers.Ledger.Close` | src/schedule/ledger.rs:123-161 | the scopes that waited get their standing, the others keep theirs, and the counts are the history's |
| `Ledgers.Ledger.Round` | src/schedule.rs:177-193 | after a round exactly one record for every scope ever folded, each over its whole history |
| `Members.SeverityFollowsHealth` | src/cluster/member.rs:143-172 | comparing health and words is comparing whole process records |
| `Members.RecordTells` | src/cluster/member.rs:143-172 | which health, severity and words a process record has: its exit, how often it was restarted, whether it has beaten and counted a round |
| `Members.FreshOrSame` | src/cluster/member.rs:89-104 | a publication changes only on a read that marks the node fresh |
| `Members.StartsUnheard` | src/cluster/member.rs:46-63 | a process just started has not beaten, nothing is parsed before it says a round, and a first beat of none leaves it in its first round |
| `Members.ReadComesTo` | src/cluster/member.rs:89-104 | a publication is parsed exactly where there is one and the rounds heard are some, and not those it was last parsed at; no read touches the process |
| `Members.JudgementComesTo` | src/cluster.rs:258-274 | not restarted, a process is as it was or exited as its status says; restarted, it is counted and as just started, or as it was killed where it did not come up |
| `Members.RestartMaySkip` | src/cluster/member.rs:70-104 | over a restart the new publication is taken exactly when its count is not the one last read at |
| `Members.Member.constructor` | src/cluster/member.rs:46-63 | a member as it starts |
| `Members.Member.Listen` | src/cluster/member.rs:110-120 | another text is a sign of life, and its count is taken where it is whole |
| `Members.Member.ReadFile` | src/cluster/member.rs:89-104 | the publication is parsed only where the beat counts a round not yet read at |
| `Members.Member.Judge` | src/cluster.rs:258-274 | reap, listen, and only where hung kill, count and restart |
| `Beats.HungExactly` | src/cluster/liveness.rs:46-53 | after any listens a running node is hung exactly when nothing was heard for the allowance, or the last change is further back than the silence |
| `Beats.SilentIsRestarted` | src/cluster.rs:258-274 | exactly when a silent node is restarted: past the allowance where what was left in its beat file is absent or held, past the silence since that was first read otherwise |
| `Beats.LeftoverPutsOff` | src/cluster/member.rs:110-120 | a silent node past its allowance that is not restarted, for what a former life left |
| `Beats.SteadyIsNotHung` | src/cluster/member.rs:81-83 | a node whose first beat and gaps are in time is not hung right after it was listened to |
| `Beats.SteadyIsNeverRestarted` | src/cluster.rs:258-274 | over a whole life of reads and judgements, however far apart, it is never restarted |
| `Beats.TornTwiceIsDeaf` | src/cluster/member.rs:110-120 | a node whose beats are all in time is restarted when it is heard twice at the same torn text, though it beat in between |
| `Beats.OwnersLeaveRoom` | src/cluster/liveness.rs:38-42 | a node that beats as it is told to is steady, and fits the bounds in use exactly where its judge takes no more than 9.9 of their ten seconds |
| `Beats.ExitIsTold` | src/cluster/member.rs:122-135 | whatever a process exits with is what the cluster says of it after every later judgement |
| `Beats.RoundsAreLastSaid` | src/cluster/member.rs:110-120 | the rounds held are those the last changed whole text said |
| `BeatFiles.AudibleExactly` | src/heartbeat.rs:113-122 | whatever was left on disk and is held, every beat written over the last is heard exactly when no torn one shows the text held |
| `BeatFiles.TornTwiceOnDisk` | src/heartbeat.rs:113-122 | beats written in time on a disk, two of them caught torn at one letter, and a restart |
| `BeatFiles.SteadyFileIsNeverRestarted` | src/cluster/member.rs:110-120 | a node whose beats are whole on disk in time is never restarted unless a torn one shows the text held |
| `Clusters.SameFresh` | src/cluster.rs:224-233 | publications and process lines alike, the assembled view is alike |
| `Clusters.PolledIs` | src/cluster.rs:197-207 | a node counts as published anew in a tick exactly where its publication was parsed in it |
| `Clusters.FreshTells` | src/cluster.rs:224-233 | an assembly holds every scope some node publishes or is the process of, each as the last to write it says, no other but the rollup's, and the rollup over exactly those |
| `Clusters.TellsOne` | src/cluster.rs:224-233 | that fixes the view, and no scope any node writes is missing from it |
| `Clusters.PublicationsStand` | src/cluster.rs:225-228 | what a node published stands in the view where no later node writes its scope and it is neither its own process nor the rollup's |
| `Clusters.Cluster.constructor` | src/cluster.rs:111-139 | a cluster that has assembled nothing |
| `Clusters.Cluster.Poll` | src/cluster.rs:197-207 | every node read until all live ones published anew or the grace is over, and not once more |
| `Clusters.Cluster.JudgeAll` | src/cluster.rs:209-211 | every process judged, each on its own |
| `Clusters.Cluster.Say` | src/cluster.rs:214-222 | what is said of each process now, in order |
| `Clusters.Cluster.Assemble` | src/cluster.rs:225-230 | the view holds every publication and process record, each scope as the last to write it says, and a rollup over exactly those |
| `Clusters.Cluster.Refresh` | src/cluster.rs:219-233 | assembled again exactly where something changed |
| `Clusters.Cluster.Tick` | src/cluster.rs:195-235 | after every tick of a non-empty cluster the kept view is a fresh assembly up to timestamps, and so holds just what the nodes publish and what is known of their processes; unchanged means reassembly gives the same; with no nodes nothing ever changes |
| `Clusters.Cluster.EmptyNeverAssembles` | src/cluster.rs:219-233 | from its start on and after every tick, a cluster of no nodes has an empty view, which is not what an assembly gives |
| `Supervision.AlikeStays` | src/cluster/member.rs:81-120 | what liveness is judged by follows from itself alone: no round, publication or parse enters it |
| `Supervision.SupervisedIsLived` | src/cluster.rs:195-211 | a node under any ticks lives a life of reads and judgements |
| `Supervision.SteadyOutlivesEveryTick` | src/cluster.rs:195-274 | however many ticks, of however many passes and however long, a node that beats in time is never restarted |
| `Supervision.SteadyFileOutlivesEveryTick` | src/cluster.rs:195-274 | the same of beats as they are on disk, unless a torn one shows the text held |
| `Heartbeats.StepInv` | src/heartbeat.rs:106-122 | every step of round, beater and reader keeps counts behind publications and beats behind counts |
| `Heartbeats.ParsedIsNoOlder` | src/bin/node.rs:256-267 | what was parsed at a count is of that round or later exactly when some round from it to the last tried by then could be written |
| `Heartbeats.SkippedIsCurrent` | src/cluster/member.rs:89-104 | a reader that skips at the last round's count holds the publication there is |
| `Heartbeats.BeatsDoNotGoBack` | src/heartbeat.rs:106-122 | no count and no beat goes back, and a beat never counts more than was tried |
| `Heartbeats.HolderIsAlone` | src/heartbeat.rs:113-122 | while one thread writes a beat the other neither beats nor counts |
| `Heartbeats.BeaterCatchesUp` | src/heartbeat.rs:74-122 | from every state of every run the beater brings the count to disk in three steps of its own, whatever the round's thread is at |
| `Heartbeats.ReaderCatchesUp` | src/cluster/member.rs:89-120 | from every state of every run the reader can come to hold the last count and, where it has not yet read at it, what was published by then |
| `Heartbeats.FailedIsBeatenAllTheSame` | src/bin/node.rs:256-267 | a run that publishes its first round, fails its second and has the first parsed at count two |
| `Retentions.RefusesThePoisoned` | src/retention.rs:76-91 | the store refuses exactly what was poisoned: no class is called so |
| `Retentions.RulesAreReal` | src/retention.rs:202-265 | the labels, the store and the numbering in use are as the results about every run ask |
| `Retentions.Retention.constructor` | src/retention.rs:147-160 | nothing kept at the start |
| `Retentions.Retention.CreateThrough` | src/retention.rs:202-217 | for each day newly reached, sixty at most, one item of each class, numbered on |
| `Retentions.Retention.TryArchive` | src/retention.rs:238-265 | archived and stored, or kept with its leak recorded |
| `Retentions.Retention.SweepLive` | src/retention.rs:224-234 | the young stay, the aged go unless missed, and a class is in a leak set exactly when one of its overdue items is still live |
| `Retentions.Retention.Tick` | src/retention.rs:179-198 | a round: create, then sweep, leaks told truthfully |
| `RetentionRuns.RunInv` | src/retention.rs:179-265 | over any sequence of clock readings the books balance |
| `RetentionRuns.EveryItemOnce` | src/retention.rs:179-265 | every id created names one item, in exactly one of live and archived; the store holds the archived ones; nothing else is in either |
| `RetentionRuns.OverdueWasMissed` | src/retention.rs:224-274 | an overdue item is live after a round only where its class's sweep was missed that round |
| `RetentionRuns.LiveIsRecent` | src/retention.rs:58-66 | with no sweep missed whatever is live is of the last ninety days created, whatever the clock does |
| `RetentionRuns.LiveIsBounded` | src/retention.rs:179-234 | with no sweep missed live never exceeds 1800 items, ninety days of twenty classes |
| `RetentionRuns.ArchivedWasDue` | src/retention.rs:224-265 | nothing is archived before a clock reading that called for it |
| `RetentionRuns.ArchivedStays` | src/retention.rs:224-265 | what is archived stays archived, in its order |
| `RetentionRuns.RulesKeepNinetyDays` | src/retention.rs:58-66 | the policy in use archives from the ninetieth day of age on, to the second |
| `RetentionDays.TickComesTo` | src/retention.rs:179-217 | a round at a day leaves the days created where that is no later, makes them that day within sixty of it, and sixty more past that |
| `RetentionDays.CatchesUp` | src/retention.rs:202-217 | after n more readings of one day the days created are that day, or sixty for each reading where that is less |
| `RetentionDays.EveryDayIsReached` | src/retention.rs:202-217 | after every run enough readings of one clock come to its day |
| `RetentionDays.NoDayAhead` | src/retention.rs:202-217 | no run creates a day its clock has not read |
| `RetentionDays.DayHasItsItems` | src/retention.rs:202-217 | after every run each class has exactly one item of each day reached, in exactly one of live and archived |
| `RetentionDays.LabelTells` | src/retention.rs:238-265 | a label tells its item's class and number |
| `RetentionDays.StoreTellsItems` | src/retention.rs:238-265 | the store holds the archived items' own labels in their order, and no two alike |
| `Backlogs.Drain` | src/daily_backlog.rs:184-198 | what is counted is what this drain removed, no more than its capacity, and short of it nothing listed is left |
| `Backlogs.Measure` | src/daily_backlog.rs:201-219 | the depth of the directory, and the number of feeders its names tell |
| `Backlogs.DailyBacklog.constructor` | src/daily_backlog.rs:80-101 | a drain at one node and the base concurrency, over the directory as it is |
| `Backlogs.DailyBacklog.Arrive` | src/daily_backlog.rs:144-150 | the round's arrivals land under the drain's next names |
| `Backlogs.DailyBacklog.Escalate` | src/daily_backlog.rs:153-163 | the tweak, or else the node, where the share calls for it |
| `Backlogs.RemediesExactly` | src/daily_backlog.rs:117-163 | exactly what a round's depth changes: over 35 a feeder the concurrency, once that was raised and over 55 a node more, each once, and nothing else but the share remembered |
| `Backlogs.DailyBacklog.Work` | src/daily_backlog.rs:108-112 | arrivals, a drain to capacity, a true measure |
| `Backlogs.DailyBacklog.Tick` | src/daily_backlog.rs:104-141 | a round is a step of the drain, and its mark is by every feeder's part of the depth against 150 and against the last one |
| `BacklogRuns.BacklogClears` | src/daily_backlog.rs:104-163 | from any directory the backlog is zero from a round on that its depth and feeders give |
| `BacklogRuns.TweakBeforeScale` | src/daily_backlog.rs:153-163 | the tweak comes strictly before the node, each once and each within its own bound |
| `BacklogRuns.BacklogConserved` | src/daily_backlog.rs:104-150 | drained and waiting are initial and arrived exactly while no arrival fell on a standing name |
| `BacklogRuns.OwnNamesAbsentConserves` | src/daily_backlog.rs:144-150 | a directory without the drain's own names is conserved in every run |
| `BacklogRuns.RecurringIdLosesCount` | src/daily_backlog.rs:144-150 | every run of a round or more from a directory that holds one of the first round's own names falls short |
| `BacklogRace.RaceConserved` | src/daily_backlog.rs:184-198 | many drains interleaved over a directory without their own names: no file counted twice, and the sum is kept |
| `BacklogRace.RaceConservedExactly` | src/daily_backlog.rs:144-198 | that holds in every run of the drains exactly when none of their own names stands in the directory at the start |
| `Rings.Ring.constructor` | src/low_latency.rs:40-44 | an empty ring |
| `Rings.Ring.Record` | src/low_latency.rs:47-54 | read from its oldest sample the ring is the last 256 of the history, one longer now |
| `Rings.Ring.Percentile` | src/low_latency.rs:57-65 | a held sample, with as many below it and within it as its percentile says, counted with no rank |
| `Rings.RingIsTheLast` | src/low_latency.rs:40-54 | the ring's multiset is that of the last samples, 256 of them or all |
| `Rings.PercentileIs` | src/low_latency.rs:57-65 | the percentile is within a limit exactly when the samples within it are more than p in a hundred of all but one |
| `Rings.PercentileGrows` | src/low_latency.rs:57-65 | percentiles are monotone |
| `Rings.HealthIsByCount` | src/low_latency.rs:229-266 | Fine exactly when nothing is held or the last samples within the budget are more than ninety-nine in a hundred of all but one, Stressed when those within two budgets are, Done otherwise |
| `Subscribings.Pass` | src/subscribing.rs:224-246 | every item let go of is picked, put back or passed over, once, each list in release order |
| `Subscribings.PickedKeepsOrder` | src/subscribing.rs:224-246 | picked is every readable item with no unread one of its Subscription before it, and no other, in release order |
| `Subscribings.HandOn` | src/relay.rs:266-274 | each picked item ends as handed on and written, kept failed or to be read again, by what its hand-on and its write came to |
| `Subscribings.Resume` | src/subscribing.rs:224-267 | a whole resume: every item ends once, exactly as its answer, its hand-on and its write say, and deliveries keep release order |
| `Subscribings.OvertakenExactly` | src/subscribing.rs:251-267 | a delivered item goes past an earlier one of its Subscription that stays, exactly when that was readable and not both handed on and written; which of the two it is says whether it is repeated or late |
| `Subscribings.TakenIsNotOvertaken` | src/relay.rs:266-274 | where every hand-on and every write succeeds nothing is overtaken |
| `Subscribings.BothWaysOfOvertaking` | src/subscribing.rs:251-267 | two items of one Subscription for each of the two ways |
| `Rotations.EachSideOnce` | src/rotation.rs:64-76 | any 2·count turns from a multiple of 2·count on meet each Party on each side at one turn and no other |
| `Rotations.KindIsFixed` | src/rotation.rs:80-84 | two turns that meet a Party on one side both strike a whole transport or both one stream |
| `Rotations.StruckIsTheirs` | src/rotation.rs:64-93 | what is struck is that Party's on that side and never the steady one, and a turn strikes exactly where there is such a transport |
| `Rotations.TenOfFifty` | src/rotation.rs:97-101 | any fifty consecutive seconds hold exactly ten struck ones where the turns they touch have a target |
| `Rotations.SteadyIsNeverStruck` | src/rotation.rs:106-117 | the steady transport suffers no fault, and a pair that does is the struck Party's on its side, in the turn's first ten seconds |
| `Rotations.SuffersExactly` | src/rotation.rs:64-117 | exactly which pairs suffer at a second: in a turn's first ten, those of one transport of its Party on its side, all streams of it on an even turn and one on an odd one |
| `Rotations.CandidatesInOrder` | src/rotation.rs:64-76 | what may be struck stands in the transports' order |
| `Rotations.TransportsParted` | src/parties.rs:147-187 | each transport has exactly one Party sending over it, the Parties in turn, and exactly one delivered to, the next |
| `Rotations.NeverBothWays` | src/parties.rs:157-179 | one transport never has one Party on both its sides, exactly when there are two Parties or no transport |
| `HandoffLinks.FirstOf` | src/topology/handoff.rs:48 | the first entry of a pair |
| `HandoffLinks.Links` | src/topology/handoff.rs:30-57 | the configured pairs with the hops merged in one after the other |
| `HandoffLinks.VolumeConserved` | src/topology/handoff.rs:42-52 | over each pair and in all, the volume is the counts of the hops whose stages are named |
| `HandoffLinks.MergedIs` | src/topology/handoff.rs:42-52 | the merge keeps the configured entries in place, marks what it adds as not configured and repeats no pair |
| `HandoffLinks.ConfiguredOnce` | src/topology/handoff.rs:61-77 | where no stage is served twice under one name the configured pairs are exactly those of a stage and the next, each once |
| `HandoffLinks.LinksAre` | src/topology/handoff.rs:30-101 | each pair drawn once with its own volume; Configured, Both or Observed exactly by the roster and the deliveries; volumes sum to all named deliveries |
| `HandoffLinks.DrawnExactly` | src/topology/handoff.rs:30-57 | a pair is drawn exactly when it is configured or a hop went over it |
| `HandoffLinks.NamedByItsWord` | src/topology/handoff.rs:30-57 | a word names a stage exactly when it is that stage's name |
| `PathLinks.Hops.Record` | src/handoff.rs:242-258 | one hop counted over its own link and no other |
| `PathLinks.RecordedNext` | src/relay.rs:278-291 | recording the hop of what was handed on keeps a node's hops those its relay counts |
| `PathLinks.KeyTells` | src/handoff.rs:242-246 | a link's key tells its ends, whatever the names are |
| `PathLinks.NodesReport` | src/handoff.rs:206-240 | what the nodes' hops report together is what their relays handed on, pair for pair |
| `PathLinks.PathIsDrawn` | src/topology/handoff.rs:30-101 | over every run of the path each link drawn is configured, has as many handoffs as were handed on over it, and is said to be observed exactly where there was one |

## Left out

- Transports, cabinets, servers, certificates, logins and far ends: an exchange is a free outcome.
- The content contracts' validators: whether a contract holds is free.
- Snapshots, health ordering and the rollup's words come from a crate not seen here: a snapshot is a map from scope to record, a later record of a scope replaces an earlier one, and the rollup is any function of the view without its timestamps and the number of nodes.
- Input and output that fails half way, and a crash between a claim's rename and its removal: an operation succeeds, fails whole or loses a race. A failed write of a handoff and of a publication are modelled.
- Exclusive claim: the ledger and a listing are each one look; that a settling lane is also judged once a breach shows or the wait is over; staging and tearing down lanes, the words of the evidence, which breached item is named first, and the standings over rounds; file names are values rather than text.
- Path conservation is over one life of each process and without Subscriptions; hop times and the activity feed are not modelled; the verdicts counted are each pair's own, not the identity verdicts beside it, which the ledger's model counts in health only.
- Relays and RelayPath: claiming a file and handing one on are single steps, which `InboxRefines` shows the inbox protocol's steps to come to; an inbox is keyed by sender and count, and `RelayRounds.KeysAreNames` says when those are names.
- Relays.Running.Receive: a node's rounds are fewer than 2^64.
- Relays.Running.DrainInbox: takes the listing and its order as given; that a claim takes files whole, once and oldest first is the inbox's model.
- The hash a pair falls by, the fault draws and the rotation's mix: fixed arbitrary functions; the kind of fault a turn strikes with is not modelled.
- Integers do not wrap: counters, rounds and microseconds are unbounded, but for the 64-bit fields of a handoff and the ten digits of a file name.
- Beats: the node and its reader share one clock, a beat counts from when it is whole on disk, and a beat file that stands there can be read.
- Clusters: hops and the number of parses a read costs are carried, not published; stopping the cluster is left out as easy.
- Retentions: the verdict lines and their standing over rounds are left out; a class's leak sets decide them.
- Retention's and the backlog's miss and arrival rates are free or constant as in the code; reading a directory that cannot be read is left out.
- Backlogs.DailyBacklog.Tick: states the round of the one drain working the directory; what many do is the interleaving of single file operations in BacklogRace.
- Subscribings: what the pickup does with an item put back, and the storage behind it, are not seen here.
- Roster text, its parsing, and declaring or dropping nodes; the board, reports, curves, audits, images and arguments: formatting and plumbing.
- Decode ignores words after the sixth, and so does the model (`Handoffs.DecodesExactly`).
- RelayOrigin.EveryHandoffArrived: for names and transports without a space or a line break; what happens otherwise, `Handoffs.SpacedTransportMisleads` shows.
