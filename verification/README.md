# Chama, verified

This project models the money-moving logic of Chama in Dafny and proves what its comments promise. It has three parts.

**The rotating savings circle.** A commitment round seals the order of the members. Collection rounds follow, one per
member; the lock times of each round decide who collects in the next. Circles, shares and the clock form a transition
system (`Chain`): opening a circle, taking a seat, locking, voting, resolving and waiting, each guarded by the gate that
guards it in the program. `Rotation` and `Race` hold the order and the race, `Gates` the reader gates and the writers,
`Writers` what they owe each other, `RaceLaw` the race told from the shares alone. `Finality` and `Protocol` state what
every run keeps, `Ballots` how every share is settled, `Inheritance` what rounds and shares carry over, `Cycles` that
each of many cycles is decided, opened and joined from its own context as from the whole chain. `Watcher`, `Sweep`,
`Opener` and `Client` are the background client, `Seats` the offer of a seat, `Conduct`, `Accusation` and `Framing` the
mark against members who stop paying, `Merits` the whole record of a member, `RotationViews` the screen of a round.
`FirstCycle`, `SpentSeats` and `FalseMark` are concrete runs.

**The on-chain 2-of-3 escrow.** `Script` is a stack machine for the opcodes used (BIP 342, BIP 65, BIP 112). `Escrow` and
`Exits` hold the three leaves, the output and the witnesses, `Settlement` and `Payout` the dispute window (BIP 68), the
builder and the checklist, `ChainReads` the corroborated funding read and the dispute spend set.

**Bond accounting.** `Lineage` walks a renewal history, `Exposure` and `Ledger` keep the capacity ledger, `BondCache` and
`CacheHistory` the cache of verified bonds, `Cooldown` and `Rests` the rests of block explorers, `TxSize` the exact size
of bond transactions.

Code that works by updating state is a method or a class here, proved against a function; the properties are proved about
the function.

## What the proofs found

- The rotation design document gives round r to the member at position r-2 of the order; the code runs the race of
  `src/chama/rotation.ts:52-82`. The model follows the code.
- `firstError` in `src/chama/policy.ts:28` holds the last error met, not the first.
- The opener stops after one run window while the successor accepts openings for one fill window. With a longer run window
  it tries too late, with a longer fill window it gives up early (`Opener.OpenerWindow`).
- With a threshold of two and exactly two commitment locks the opener keeps trying to open a round that no gate admits,
  because a rotation needs three members (`Opener.CountMatchesSeal`, `FirstCycle.TwoAreNotEnough`).
- A client resolves at most 64 rounds back, so from round 65 on it finds no anchor: it can neither open the next round
  nor take a seat, and the screen and the mark lose the cycle one round later (`Cycles.ResolvedHoldsCycle`,
  `Cycles.AttemptOpens`, `Cycles.SeatOpens`, `RotationViews.ViewIsTrue`, `Framing.MarkedExactly`).
- A seat can be offered that cannot be taken, in three cases and no other: the pool has no free arbiter, the member was
  refunded and claimed before the fill deadline, or somebody opened a circle under the seat's id, a case
  `src/escrow-engine/escrow-client.ts:1119` and `:1422` report (`Seats.OfferedSeatCanBeTaken`, `SpentSeats`).
- The mark can fall on a member who paid. It trusts the time a resolution states, while the gate judges the time of its
  event; and the gate accepts a refund of a filled round that commits too few lockers. The mark is sound when resolutions
  commit honest evidence and state their own time (`Accusation.MarkIsSound`); when only one of the two is honest, two
  members can bring it about (`FalseMark.NoEvidenceMarks`, `FalseMark.FalseTimeMarks`). Its exact condition does not
  mention the fill (`Framing.MarkedExactly`).
- A dispute witness with all three signatures is refused, since every available signature is inserted and the leaf counts
  to exactly two (`Exits.DisputeFinalizes`).
- A dispute settlement without an appeal window can be built but never passes the checklist
  (`Payout.BuilderMeetsChecklist`).
- Tenure can start too early under failed reads, exactly when some known height lies below both the root's and the
  bond's own (`Lineage.ShortIsSafeOnChain`, `Lineage.UnorderedHeightsFailLong`).
- Capacity checked only when a trade is created can be overrun by two commits (`Ledger.SeatThenCommitOverruns`).
- A success after a rest clears a host's record, so leftovers of a slow burst can start a second rest: exactly when a
  request may take more than two milliseconds over a minute to settle (`Rests.OneRestPerBurst`,
  `Rests.SlowBurstRestsTwice`). `src/bond-multisig/fund-watcher.ts:222-225` aborts requests after eight seconds unless
  told otherwise, so this takes a longer deadline or a suspended timer.
- The size estimate is two short beyond 65535 inputs (`TxSize.ReclaimSizeIsExact`).

## Model

| member | source | states |
|---|---|---|
| Circles.ValidateCircleRound | src/chama/circle.ts:21-60 | the list of errors names exactly the broken laws of a round, and is empty exactly for a lawful one |
| Rotation.CommitmentLocks | src/chama/rotation.ts:115-127 | the loop with its seen set yields the first locked commitment share of each escrow id |
| Rotation.FirstStateCounts | src/chama/rotation.ts:115-127 | the seats are exactly the locked escrows of the commitment round, each counted in its first listed state |
| Rotation.OrderSpec | src/chama/rotation.ts:31-42 | the sealed order lists exactly the members who locked, once each, and the host only in last place |
| Rotation.SeatedOnceLocked | src/chama/rotation.ts:31-42 | the order seats exactly the members with a dated seat of the circle that is more than reserved |
| Rotation.OrderIsByLockTime | src/chama/rotation.ts:31-42 | non-host members stand in the order of their locks, ties by key |
| Rotation.OrderFromSet | src/chama/rotation.ts:31-42 | with one lock per member the order does not depend on how the locks are listed |
| Rotation.WinnerIsFastest | src/chama/rotation.ts:64-79 | sorting and searching names the fastest racer outside the excluded set, and none exactly when all are excluded |
| Rotation.WinnerFromSet | src/chama/rotation.ts:64-79 | a race depends on who locked when, never on listing order |
| Race.CollectorForRound | src/chama/rotation.ts:52-82 | the loop over rounds with its collected set computes the recursive race; an index outside 2..n+1 has no collector |
| Race.RunRace | src/chama/rotation.ts:66-79 | ranking one round and picking the first uncollected non-host racer is one step of that race |
| Race.CollectorsAreDistinct | src/chama/rotation.ts:52-82 | nobody collects twice, only sealed members collect, a seated host only in round n+1 |
| Race.FullCycleIsAPermutation | src/chama/rotation.ts:52-82 | if all n collectors exist they are a permutation of the order, host last |
| Race.CycleAccounts | src/chama/rotation.ts:52-82 | over a full cycle every member pays n-1 shares and receives n-1 shares, and at every prefix of released rounds the nets sum to zero |
| Race.NoDeadlock | src/chama/rotation.ts:64-78 | if the previous round filled, the next has a collector, for every round up to n+1 |
| RaceLaw.OrderIsSealed | src/chama/rotation.ts:31-42 | told from the shares alone: the order lists exactly whoever locked the commitment round, once each; who stands before another member locked earlier, or at the same time with the smaller key; nobody stands behind the host |
| RaceLaw.FastestCollects | src/chama/rotation.ts:52-82 | told from the shares alone: a round is collected by the member whose lock of the round before is ahead of every other entrant's, where entrants are sealed members other than the host who have not collected; by the seated host in round n+1; by nobody exactly when no one entered or an earlier round had no collector |
| Gates.RotationFromCycle | src/chama/policy.ts:27-43 | the loop returns the scan result, including which error is reported when none seals (the last one met, despite its name) |
| Gates.ScanFindsFirst | src/chama/policy.ts:27-43 | the answer is the first circle that can anchor the claim and seals a rotation; it fails exactly when there is none |
| Gates.ScheduleTiles | src/chama/policy.ts:60-65 | round starts, deadlines and ends tile time: each round starts where the last ended and every moment falls in exactly one round |
| Gates.FillEvidenceFor | src/chama/policy.ts:251-260 | the evidence is every member who locked the round, once, in key order |
| Gates.NextRotationRoundPayload | src/chama/policy.ts:316-346 | the loop over circles computes the next round and payload the specification function gives |
| Writers.AcceptedRound | src/chama/policy.ts:48-76 | whatever the CREATE gate accepts as a collection round has its anchor, index, seats, schedule and filled predecessor right |
| Inheritance.AcceptedRoundCarries | src/chama/policy.ts:112-121 | an accepted collection round carries its anchor's amount, mint and community, and the pool, bonded keys and federation of the anchor's circle |
| Inheritance.RoundsInherit | src/chama/policy.ts:112-121 | in every run every collection round has, field by field, its anchor's pool, bonded keys, federation and its prefix, mint, community name and share amount |
| Inheritance.AcceptedShareCarries | src/chama/policy.ts:126-164 | an accepted share carries its parent's pool, bonded keys, federation, mint, community and amount, charges no fee, ends with the round and leaves a free arbiter; a seller who is not the creator is a member whose own share of the round locked no later |
| Inheritance.RingsLeadToTheCreator | src/escrow-engine/escrow-client.ts:1259-1279 | in every run each fill-or-refund share is witnessed by its creator or by a member who locked before it was made, and following witnesses ends at the creator |
| Writers.PreviousRoundCheck | src/chama/policy.ts:66-74 | the predecessor check passes exactly when every expected member locked the previous round |
| Writers.PayloadIsLawful | src/chama/policy.ts:327-345 | the derived terms break no law exactly when their numbers are safe integers |
| Writers.NextRoundPassesGate | src/chama/policy.ts:316-346 | the writer's payload passes the reader's gate exactly for a sealed publisher after a filled previous round, as long as its numbers are safe integers |
| Writers.RotationSharePassesGate | src/chama/policy.ts:300-310 | in any context the rotation share payload passes the gate exactly inside the fill window, with a free pool arbiter, and when the rotation the parent's id proves names the same collector and seats the buyer |
| Writers.EvidenceAgreement | src/chama/policy.ts:192-247 | an outcome is accepted as finalize with the view's own evidence exactly when it is accepted as intent and the evidence has at most 128 entries |
| Writers.NoDiscretion | src/chama/policy.ts:230-246 | an intent is accepted exactly for the lawful outcome |
| Chain.StepKeepsStructure | src/chama/policy.ts:79-165 | every event keeps ids unique, rounds lawful and on schedule, and shares bound to their parent, seat, policy and fill window |
| Chain.ReplayGrows | src/escrow-engine/state-machine.ts:845-846 | a run only adds: seats and locks never change, and new locks fall between now and their deadline |
| Finality.EveryRunIsGood | src/chama/policy.ts:48-165 | in every run each collection round is sealed to one anchor with a collector and n-1 seats, and each rotation share pays that collector |
| Finality.LocksAreFrozen | src/escrow-engine/state-machine.ts:845-846 | past a round's fill deadline its set of locks never changes |
| Finality.CollectorIsFrozen | src/chama/rotation.ts:44-51 | past the fill deadline of round r-1 the collectors of all rounds up to r never change |
| Protocol.SealedForGood | src/chama/rotation.ts:44-51 | finality over any run, any continuation, and any listing of the shares before and after |
| Protocol.EveryOpenRoundHasItsCollector | src/chama/rotation.ts:44-82 | in every run each collection round on the chain has a sealed, not yet paid collector; the host only at the end |
| Protocol.FilledByCount | src/chama/policy.ts:66-74 | counting lockers against the threshold says the same as checking every expected member by name |
| Protocol.OneLawfulOutcome | src/chama/policy.ts:192-247 | in every run both forms of the outcome gate agree on every rotation share and admit exactly the lawful outcome |
| Ballots.PlainSharesOnlyReturn | src/chama/policy.ts:194-194 | under every judgment, context and evidence a fill-or-refund share admits a refund and refuses a release |
| Ballots.VotesOnce | src/escrow-engine/state-machine.ts:1358-1385 | each seat votes once on a locked, unresolved share: principals as they please on a rotation share, the arbiter exactly as the gate allows |
| Ballots.ResolvesByTwo | src/escrow-engine/state-machine.ts:1549-1592 | a resolution is accepted exactly once, on a locked share, after two of three votes for the outcome and as the gate allows |
| Ballots.ResolutionsAreJudged | src/chama/policy.ts:203-229 | an arbiter vote or resolution of a rotation share is accepted exactly on well-formed evidence within the members who owe the round: a release when it names them all, from the round end until the payday lapses; a refund when it names fewer, from the fill deadline, or all, after the lapse |
| Ballots.IntentsAreJudged | src/chama/policy.ts:230-246 | in any context, an intent is accepted exactly when the rotation seals and the share is of it: a release to the collector after everyone who owes the round locked, between round end and lapse; a refund from the fill deadline, or after the lapse when everyone locked |
| Ballots.RunsSettleLawfully | src/escrow-engine/state-machine.ts:1549-1592 | in every run no fill-or-refund share carries a release vote or is resolved as anything but a refund; a resolution needs a lock and two agreeing votes; a rotation share is released no earlier than the round end and refunded no earlier than the fill deadline |
| Protocol.OutcomeNeverTurnsBackInRuns | src/chama/rotation.ts:93-109 | over any run a lawful refund stays lawful for good and a lawful release is followed only by release or refund |
| Protocol.HonestRunsFollowTheLaw | src/escrow-engine/state-machine.ts:1549-1592 | when resolutions commit the evidence their chain shows and state their own time, every resolved share was settled by the law |
| Cycles.ResolveCycle | src/escrow-engine/escrow-client.ts:1240-1260 | the loop walks back from a round for at most 64 rounds and gathers each circle with its children |
| Cycles.ResolvedHoldsCycle | src/escrow-engine/escrow-client.ts:1240-1260 | in a run, what round r of a cycle resolves to is exactly that cycle up to r with its shares, for r up to 64; beyond that no rotation is found in it |
| Cycles.SameRoundGate | src/chama/policy.ts:48-76 | for a round of the cycle the CREATE gate decides on the cycle's own context, in any listing, as on the whole chain, however many cycles there are |
| Cycles.SameSeatGate | src/chama/policy.ts:79-165 | so does the CREATE gate for a share of one of its rounds |
| Cycles.SameOutcomeGate | src/chama/policy.ts:192-247 | so does the outcome gate in every form |
| Cycles.NextRoundOpens | src/chama/policy.ts:316-346 | in every run and for every anchor on the chain, the payload derived from that cycle's context opens its next round exactly for a sealed member after a filled round, as long as the id is free and the numbers are safe integers |
| Cycles.AttemptOpens | src/escrow-engine/escrow-client.ts:1141-1152 | in every run, an attempt on any round the opener takes as ended and full opens the successor exactly up to round 64, for a sealed cycle that is not complete, inside the successor's fill window, with a free id, safe integers and a sealed publisher |
| Cycles.SeatOpens | src/escrow-engine/escrow-client.ts:1123-1131 | in every run and every cycle, pressing lock on a collection round takes the seat exactly up to round 64, for a sealed member other than the collector, before the deadline, with a free arbiter and a free id |
| FirstCycle.FirstCollectionRoundOpens | src/chama/policy.ts:316-346 | a concrete run: two members and then the host commit, and the first collection round opens, so the hypotheses about runs can be met |
| FirstCycle.TwoAreNotEnough | src/chama/wiring.ts:100-108 | a concrete run with threshold two and two locked: the opener takes the round as full and its attempt does nothing, whoever makes it |
| Watcher.WatcherIsExact | src/chama/wiring.ts:110-127 | in every run a pass votes exactly where a vote is due: the one lawful outcome, once per share, before the round end only in a completed view, wherever publication goes through; and gives a filled round nothing but releases until its payday lapses |
| Watcher.LostVotesAreRetried | src/chama/wiring.ts:51-51 | in every run, whatever a pass owes and fails to publish is voted by it or by the next pass that can publish |
| Watcher.NoSecondVote | src/chama/wiring.ts:113-127 | over any number of passes and anything in between, a client never votes twice on a share |
| Sweep.SharesForCircle | src/chama/wiring.ts:11-35 | the loop yields one row per escrow id with its lock and claim status |
| Sweep.RowsAreFirstStates | src/chama/wiring.ts:11-35 | the rows are those of the circle asked for, each escrow once in its first listed state |
| Sweep.FillIsLatched | src/chama/circle.ts:71-97 | in every run a circle that ran never becomes refund-due, one that fell short never runs, and claims do not change which |
| Opener.StatusExactly | src/chama/circle.ts:71-97 | a circle is filling, refund-due, running or complete exactly by the clock and the number of members who locked before the deadline |
| Opener.OwedExactly | src/chama/wiring.ts:77-92 | what a circle owes back is exactly the locked shares, not yet claimed back, of one that fell short or has ended |
| Sweep.SweepIsRight | src/chama/wiring.ts:77-95 | in every run the sweep votes refund only on fill-or-refund shares owed back, never on rotation shares, before the round end only on a failed fill in a completed view, and leaves none unvoted except where publishing failed |
| Opener.OpenerWindow | src/chama/wiring.ts:100-106 | the opener's stop time and the successor's fill window agree exactly when run window and fill window are equally long |
| Opener.TriesExactly | src/chama/wiring.ts:96-108 | the opener tries exactly on a rotation that has ended, for as long as it ran, with as many members locked as its threshold and no successor in view |
| Opener.CountMatchesGate | src/chama/wiring.ts:100-104 | for a collection round the opener's lock count and the gate's predecessor check say the same |
| Opener.CountMatchesSeal | src/chama/wiring.ts:100-104 | for round one they agree exactly unless the threshold is two and two are locked |
| Client.RefundWatcher.Run | src/chama/wiring.ts:69-130 | one guarded pass, with any set of publications failing, does what the sweep, the opener and the rotation pass specify, and nothing when a pass is running |
| Client.RefundWatcher.VoteOn | src/chama/wiring.ts:113-127 | the candidate loop casts the first vote that is admitted and published, and stops |
| Client.WholePassIsExact | src/chama/wiring.ts:69-130 | in every run the sweep leaves rotation shares untouched and the rotation votes after it are exact |
| Client.OpeningsExactly | src/chama/wiring.ts:96-108 | a pass tries to continue exactly the rounds that await their successor |
| Seats.OfferedSeatCanBeTaken | src/chama/circle.ts:143-176 | in every run an offered seat has a payload, and publishing it takes the seat unless, exactly, the pool has no free arbiter, the member's own share was refunded and claimed, or a circle holds the seat's id |
| Seats.OfferedExactly | src/chama/circle.ts:143-176 | told from the shares: a seat is offered exactly before the deadline, to a member with no share taking up a seat, while there is room; to the creator only if hosts may sit and another member has locked |
| Seats.RingIsLatest | src/chama/policy.ts:281-288 | the seller of a ring payload is whoever locked last among the others, the creator while nobody else has, and a creator before whom nobody locked gets none |
| Seats.FirstAmongEquals | src/chama/policy.ts:283-285 | among those who locked last the first listed vouches |
| SpentSeats.RefundedSeatIsOffered | src/chama/circle.ts:143-176 | a concrete run: a refunded and claimed seat is offered again, and no payload takes it |
| SpentSeats.HeldSeatIsOffered | src/escrow-engine/escrow-client.ts:1119-1119 | a concrete run: another key opens a plain circle under a member's seat id; the seat is offered and no payload takes it |
| Seats.RingPayloadPasses | src/chama/policy.ts:271-296 | the share writer with its ring of witnesses passes the CREATE gate |
| Conduct.RotationConduct | src/chama/stats.ts:14-77 | the grouped loops count the collections, gather the sacrifice shares and keep the earliest marked deadline |
| Merits.RecordIsTrue | src/chama/stats.ts:14-77 | in every run, with the whole chain in view: the collections counted are exactly the member's paydays, the sacrifices exactly their locks after a payday of the same cycle, and the marked rounds exactly those left owing after one, up to round 65 |
| Accusation.MarkIsSound | src/chama/stats.ts:56-75 | in runs whose resolutions commit honest evidence and state their own time, no view, partial or stale, marks anybody for a round that filled |
| Framing.EarlierRoundFilled | src/chama/policy.ts:66-74 | in a run, every round before one that exists was opened and filled |
| Framing.MarkedExactly | src/chama/stats.ts:14-77 | in every run some view marks a member for a collection round if and only if its fill deadline has passed, it is round 3 to 65, the member collected an earlier one, and somebody else's share of it was refunded with a stated time before the round end |
| Framing.RefundMarks | src/escrow-engine/state-machine.ts:1552-1592 | one accepted refund makes a member markable, who was not before, exactly when it is of another's share, states a time before the round end, and the member collected earlier within reach of the walk |
| Framing.LiesPass | src/chama/policy.ts:203-229 | a refund with no evidence is accepted exactly from the fill deadline on, whoever locked; after the payday lapsed honest evidence is accepted with any stated time |
| FalseMark.NoEvidenceMarks | src/chama/stats.ts:60-75 | a concrete run: every seat of round three locked, a refund with honest time and no evidence, and a view that marks a member who paid |
| FalseMark.FalseTimeMarks | src/chama/stats.ts:60-75 | a concrete run: the same round, a refund with honest evidence and a false time, and a view that marks the member |
| Accusation.AccusationIsTrue | src/chama/stats.ts:14-77 | a marked member collected an earlier filled round of the same cycle and the marked round fell short; their own lock, if any, is missing from the view |
| Accusation.LoyalMemberIsNeverMarked | src/chama/stats.ts:46-76 | with the whole chain in view, a member who locked every round after collecting is never marked |
| RotationViews.RotationViewFor | src/chama/rotation.ts:144-166 | the walk through circles and shares and the standings loop compute the specified view |
| RotationViews.ViewIsTrue | src/chama/rotation.ts:144-166 | in every run a collection round's view shows the sealed order, its collector and the standings, exactly up to round 65 |
| RotationViews.FirstViewIsTrue | src/chama/rotation.ts:144-166 | the view of a first round shows the order so far, no collector, and who would collect each round to come |
| Script.NumRoundTrip | src/bond-multisig/onchain-escrow.ts:214-218 | script numbers decode to what was encoded and stay within their size |
| Script.EncodedShortest | src/bond-multisig/onchain-escrow.ts:214-218 | the encoding is the shortest, keeps the sign bit clear, and with it set reads as the negative |
| Escrow.BuildsWhenSound | src/bond-multisig/onchain-escrow.ts:248-284 | an escrow builds exactly for three distinct 32-byte keys, a window of 0 to 65535 and a refund height in the block domain |
| Escrow.MultisigAccepts | src/bond-multisig/onchain-escrow.ts:182-211 | an m-of-n leaf (fewer than 100 keys) accepts exactly one item per key in reverse key order, each empty or valid, with exactly m valid |
| Escrow.CoopAccepts | src/bond-multisig/onchain-escrow.ts:182-188 | the coop leaf accepts exactly both principals' signatures |
| Escrow.DisputeAccepts | src/bond-multisig/onchain-escrow.ts:196-222 | the dispute leaf accepts exactly two of three signatures, and with a window only an input that asserts its age; a third signature is refused |
| Escrow.RefundAccepts | src/bond-multisig/onchain-escrow.ts:226-240 | the refund leaf accepts exactly the funding principal's signature, buyer or seller as the parameters say, under a lock time at or past the refund height |
| Exits.OnlyExits | src/bond-multisig/onchain-escrow.ts:242-284 | for every witness: the output can be spent exactly through one of the three exits, and the third takes the key of the principal who funded |
| Exits.ExitsByHeight | src/bond-multisig/onchain-escrow.ts:104-134 | in blocks: cooperation any time, two of three only after the window, the principal who funded alone only past the refund height |
| Exits.NoSingleKey | src/bond-multisig/onchain-escrow.ts:14-24 | no single key moves the coins up to the refund height |
| Exits.OthersNeverSpendAlone | src/bond-multisig/onchain-escrow.ts:14-24 | a transaction carrying only the signatures of the principal who has not funded, or only the arbiter's, is refused at any height |
| Exits.WitnessIsAssembled | src/bond-multisig/onchain-escrow.ts:356-397 | there is a witness to assemble exactly when somebody signed the branch's leaf, for a refund the principal who funded, whose signature it then is |
| Exits.CoopFinalizes | src/bond-multisig/onchain-escrow.ts:356-397 | an assembled coop witness is accepted exactly when both principals signed |
| Exits.DisputeFinalizes | src/bond-multisig/onchain-escrow.ts:356-397 | an assembled dispute witness is accepted exactly when two keys signed, no more and no fewer, and the window is asserted |
| Exits.RefundFinalizes | src/bond-multisig/onchain-escrow.ts:380-385 | an assembled refund witness is accepted exactly when the principal who funded signed under a mature lock time |
| Settlement.WindowIsBip68 | src/bond-multisig/onchain-escrow-settle.ts:59-104 | the window is open exactly when BIP 68 lets the next block include the spend; a closed one names the first block that may |
| Settlement.BuildSettlement | src/bond-multisig/onchain-escrow-settle.ts:125-196 | the builder refuses for the first failing reason and otherwise sweeps every output to one payout with the branch's sequence |
| Settlement.OrdersAreTimely | src/bond-multisig/onchain-escrow-settle.ts:125-196 | when an order is accepted, exactly: at least one output, a fee that leaves a relayable payout, a dispute only once the deposit has waited out its window, a refund only under the committed height once the tip has reached it |
| Settlement.VerifySettlement | src/bond-multisig/onchain-escrow-settle.ts:277-368 | the loops report no failure exactly when the settlement passes the checklist as one predicate |
| Payout.BuiltSettlementConfirms | src/bond-multisig/onchain-escrow-settle.ts:125-196 | whatever the builder builds, signed by the keys its branch needs, the funding principal's for a refund, is accepted by the script, aged for the next block, and final there unless a given lock time lies ahead |
| Payout.BuilderMeetsChecklist | src/bond-multisig/onchain-escrow-settle.ts:277-368 | a built settlement passes exactly for distinct outpoints, a fee within the ceiling and, for disputes, a window above zero |
| Payout.ChecklistProtects | src/bond-multisig/onchain-escrow-settle.ts:253-262 | passing means distinct known inputs, the committed one among them or all when none is committed, at least the committed amount, and all but the allowed fee to the one destination |
| Payout.PassingInputsAreSafe | src/bond-multisig/onchain-escrow-settle.ts:277-368 | on the fields of whatever passes, with and without a committed outpoint: every input spends this escrow's script for its locally known amount with a whole-transaction signature; a refund is locked to the committed height, which the tip has reached, with sequences 0xfffffffe; a dispute asserts the window |
| Payout.SafeSettlementsPass | src/bond-multisig/onchain-escrow-settle.ts:277-368 | the converse: a settlement of safe inputs, each spent once, that is timely, spends what it must and pays all but the allowed fee to the one destination is never turned away |
| Payout.AcceptanceSurvivesDeposits | src/bond-multisig/onchain-escrow-settle.ts:253-262 | with a committed outpoint acceptance survives any enlargement of the known outputs; without one a new output undoes it |
| ChainReads.FindCorroboratedFunding | src/bond-multisig/escrow-chain-reads.ts:60-90 | a deposit is returned exactly when two answers report it alike; fewer than two answers fail; one configured explorer is the authority |
| ChainReads.OneLiarIsHarmless | src/bond-multisig/escrow-chain-reads.ts:5-14 | one dishonest explorer can neither invent a deposit nor hide one two others report |
| ChainReads.OpenSpendSet | src/bond-multisig/escrow-chain-reads.ts:106-122 | the set is open exactly when the committed deposit's own window is, holds it, holds only deposits past their wait, and reports a height the builder accepts |
| ChainReads.DepositsNeverClose | src/bond-multisig/escrow-chain-reads.ts:95-105 | no further deposit closes an open set or removes anything from it |
| ChainReads.DisputePayoutIsRipe | src/bond-multisig/escrow-chain-reads.ts:106-122 | the builder's window gate passes and BIP 68 admits every input to the next block |
| Lineage.VerifyLineage | src/bond-multisig/bond-lineage.ts:89-164 | the walk returns exactly the longest unbroken prefix within the hop limit, its root, and why it stopped |
| Lineage.ProvenHopsAreSpent | src/bond-multisig/bond-lineage.ts:112-157 | on the reader's maps: the first output of every proven hop that pays exactly its bond address is spent by the next hop, the last by the current bond; the hop the walk stops at has no such output |
| Lineage.HopIsJudged | src/bond-multisig/bond-lineage.ts:112-157 | a readable hop is proven exactly when its first output paying the claimed bond was spent into the heir; every other answer has its own reason |
| Lineage.StopIsExplained | src/bond-multisig/bond-lineage.ts:89-164 | why the walk stopped: its limit, or the first hop that failed and how |
| Lineage.FewerReadsFewerHops | src/bond-multisig/bond-lineage.ts:29-34 | a reader that fails on more reads never proves more hops |
| Lineage.ShortIsSafe | src/bond-multisig/bond-lineage.ts:179-191 | no reader that fails on more reads starts tenure earlier, if and only if wherever a walk can be made to stop the last known height is not below both the full walk's root and the bond's own |
| Lineage.ShortIsSafeOnChain | src/bond-multisig/bond-lineage.ts:179-191 | with distinct transactions: if and only if no known height of the proven hops is below both |
| Lineage.TenureFailsShort | src/bond-multisig/bond-lineage.ts:29-34 | so with ordered heights more failed reads never start tenure earlier |
| Lineage.UnorderedHeightsFailLong | src/bond-multisig/bond-lineage.ts:150-156 | without ordered heights they can: a concrete chain |
| Exposure.GetOpenBondedTrades | src/arbiters/exposure.ts:153-170 | the loop keeps exactly the trades that seat this arbiter, at or above the floor, with money in them: a deposit on-chain, otherwise a locked, approved or claimed ecash trade |
| Exposure.BondCapacities | src/arbiters/exposure.ts:294-317 | the maps and sets total, per arbiter, every distinct bond no other bond renews |
| Exposure.CountedExactly | src/arbiters/exposure.ts:294-317 | a row counts exactly when it has an owner, no announcement of that owner lists its funding transaction as spent on, and no such row before it has its owner and address |
| Exposure.RenewalReplaces | src/arbiters/exposure.ts:283-288 | a renewal changes the total by the difference of new and old bond, never by their sum |
| Exposure.OlderCoversMore | src/arbiters/exposure.ts:100-117 | longer tenure never covers less, and unknown tenure counts as new |
| Exposure.AssignableArbiters | src/arbiters/exposure.ts:253-273 | the list is exactly the bonded arbiters who, for a trade at or above the floor, can cover it with all else they have open |
| Exposure.LargestCoverSats | src/arbiters/exposure.ts:325-340 | the result is the most any eligible arbiter can still cover |
| Exposure.CoverMatchesAssignment | src/arbiters/exposure.ts:319-340 | a trade at or above the floor has an eligible arbiter exactly when it is no larger than the largest cover |
| Exposure.AssignablePool | src/arbiters/exposure.ts:395-403 | over-capacity members are dropped unless all are; the pool never empties |
| Ledger.CommitIsExact | src/arbiters/exposure.ts:264-270 | committing a trade keeps everyone within their bonds exactly when its arbiter is assignable at that moment |
| Ledger.RebondIsExact | src/arbiters/exposure.ts:294-317 | a change of bonds keeps everyone within them exactly when the new bonds cover what each seated arbiter has open |
| Ledger.RunsStayWithin | src/arbiters/exposure.ts:6-14 | in every run that commits only on assignable arbiters and changes bonds only where they still cover, no open exposure exceeds the owner's bonds |
| Ledger.SeatThenCommitOverruns | src/arbiters/exposure.ts:6-14 | checking only when a trade is created is not enough: a concrete run exposes twice the bond |
| BondCache.BondRoundTrip | src/arbiters/bonded-pool-cache.ts:100-155 | every field survives storing exactly for canonical bonds; otherwise roles default and empty strings vanish |
| BondCache.Cache.Write | src/arbiters/bonded-pool-cache.ts:167-201 | a write replaces the named arbiters' records, keeps the others' and evicts only the oldest communities beyond fifty |
| BondCache.Cache.Save | src/arbiters/bonded-pool-cache.ts:83-98 | eviction keeps the fifty newest communities unchanged |
| BondCache.Cache.Read | src/arbiters/bonded-pool-cache.ts:209-224 | a read returns the usable records, and nothing if one is unreadable or none is left |
| CacheHistory.LastReadWins | src/arbiters/bonded-pool-cache.ts:185-200 | after any history an arbiter's records are exactly those of the last write that named them |
| CacheHistory.ReadIsCurrent | src/arbiters/bonded-pool-cache.ts:204-224 | a read returns exactly the last proofs of the last write naming each arbiter that are within twelve hours |
| CacheHistory.OneReadPerArbiter | src/arbiters/bonded-pool-cache.ts:185-189 | records of two different reads of one arbiter never coexist |
| CacheHistory.Replay | src/arbiters/bonded-pool-cache.ts:167-201 | within the community limit the stored object equals the history, community by community |
| Cooldown.RetryAfterMs | src/bond-multisig/fund-watcher.ts:102-110 | a readable header gives its own time within one to fifteen minutes, an unreadable one nothing |
| Cooldown.ExplorerHealth.NoteFailure | src/bond-multisig/fund-watcher.ts:121-138 | a failure updates the host's record as specified, and not at all when it was sent before the current rest |
| Cooldown.ExplorerHealth.NoteSuccess | src/bond-multisig/fund-watcher.ts:112-119 | a success clears the record unless it was sent before the current rest |
| Rests.RestsAreOrderly | src/bond-multisig/fund-watcher.ts:97-138 | in every interleaving rests last one to fifteen minutes, never overlap per host, and no request in flight was sent during one |
| Rests.GateHolds | src/bond-multisig/fund-watcher.ts:211-220 | no request is launched while its host rests |
| Rests.OneRestPerBurst | src/bond-multisig/fund-watcher.ts:121-123 | requests settling within d never start a rest that their own burst already caused, in every run, if and only if d is at most one minute and two milliseconds |
| Rests.SlowBurstRestsTwice | src/bond-multisig/fund-watcher.ts:114-119 | a concrete run at one millisecond more, with two rests from one burst |
| TxSize.BuildReclaimTx | src/bond-multisig/commitment-bond.ts:272-314 | the builder refuses bad input and otherwise shapes one input and witness per coin and one output |
| TxSize.ReclaimSizeIsExact | src/bond-multisig/commitment-bond.ts:209-225 | the estimate is the virtual size of the serialised reclaim, exactly up to 65535 inputs for a 34-byte output script |
| TxSize.BuildKeyPathSweepTx | src/bond-multisig/commitment-bond.ts:361-402 | the key-path builder refuses bad input and otherwise shapes one input and one signature per coin and one output |
| TxSize.KeyPathSizeIsExact | src/bond-multisig/commitment-bond.ts:239-252 | the key-path sweep estimate is exact in the same sense |
| TxSize.ReclaimFeeCovers | src/bond-multisig/commitment-bond.ts:226-237 | the fee is never below rate times real size, nor below 300 |
| TxSize.ReclaimNeedsMaturity | src/bond-multisig/commitment-bond.ts:261-271 | the leaf accepts the owner exactly when the lock time has reached T |

## Left out

- Chain.StepKeepsStructure: LOCK, VOTE and RESOLVE are steps guarded by the gates shown; ciphertext routing, withheld shares, settlement proofs and the rest of the reducer's checks are not modelled. Gates judge on the whole chain; a client's own context decides alike up to the rounds its walk reaches, as Cycles proves, and refuses what lies beyond.
- Chain.ReplayGrows: events carry the model's clock, which never goes back, so a published event with an earlier timestamp than its neighbours is not represented.
- Protocol.HonestRunsFollowTheLaw: fabricated fill evidence is allowed by the gate and excluded here by hypothesis.
- Watcher.WatcherIsExact: the client's vote path is the outcome gate on its own view together with its seat, lock and earlier votes; arbiter seats, arbiter substitution and pending votes are not modelled.
- Client.RefundWatcher.Run: publishing is a single step that succeeds, is refused or fails; the error handler, which only logs, and the asynchronous gap between reading and publishing are left out.
- Seats.OfferedSeatCanBeTaken: the choice of arbiter is reduced to the existence of a pool member who holds neither seat.
- Accusation.MarkIsSound: a partial view of a round that really fell short can still mark a member whose lock it withholds, as AccusationIsTrue says.
- Cycles.ResolveCycle: circles and children are found in the chain given; relay reads, the cache and the recursion guard are left out.
- Exits.OnlyExits: hashes are free constructors, signatures an abstract validity predicate, and the unspendable internal key the hypothesis that no key-path signature is valid; signature-operation budgets and relay policy are not modelled.
- Payout.BuiltSettlementConfirms: base64, PSBT parsing and address encoding are left out; an address stands for its script.
- ChainReads.FindCorroboratedFunding: network reads are parameters; confirmations are filtered before the read is modelled.
- Lineage.VerifyLineage: transaction ids are compared as canonical values and malformed explorer answers count as failed reads.
- Exposure.BondCapacities: floating-point products are reals; sums are unbounded integers.
- BondCache.BondRoundTrip: lineage objects are opaque, and amounts read back accept plain decimal digits only.
- BondCache.Cache.Save: which of several equally old communities is evicted first is left open.
- Rests.RestsAreOrderly: clearing all records when the device comes back online is a method of the class but not an event of the runs.
- Cooldown.RetryAfterMs: the header arrives read as whole seconds, a date or neither; fractions and the parsing of dates are left out.
- Standing scores, punctuality weights and member statistics: tunable display numbers.
- circleProgress totals, nextRoundTemplate and collapseCircleShares: plain arithmetic and filters over the same rows.
- The hedged race between explorers, timeouts and abort signals: timers and networking.
- settlementFeeCeilingSats and the measured leaf sizes: constants from measurement.
- Key derivation, address validation, bech32 and taproot tweaking: library code.
- Event parsing, JSON shapes, key casing, the user interface and the native shell.
