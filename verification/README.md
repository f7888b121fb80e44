# Verified model of the sxt-node core

The sxt-node chain collects data submissions until a quorum agrees, records who attested which block, pays
staking rewards page by page, and publishes a Merkle tree of its commitments and stakes. Beside the chain runs a
forwarder that carries finalised blocks to Ethereum and marks them on chain. This project models those parts in
Dafny and proves what every run of them keeps.

| module | models |
|---|---|
| `Common`, `Arithmetic`, `Endian` | shared types, division facts, fixed-width numbers |
| `Indexing`, `QuorumRuns`, `QuorumDecisions`, `QuorumReach`, `QuorumOrder`, `QuorumTables` | the indexing pallet and its data quorum |
| `Forwarder`, `ForwarderProcess` | the block forwarder, its channel, nonces, crashes and restarts |
| `Rewards`, `RewardsBound`, `EraPayout` | the payout scheduler and the inflation per era |
| `Permissions` | permission lists and nested delegation |
| `Attestations`, `Keystore` | the keystore and attestation pallets and the signed messages |
| `Scale`, `StorageKeys`, `AttestationTree`, `StakeProofs` | the SCALE codec of the Polkadot specification, storage keys, leaves, the tree and what its proofs mean |
| `TableOptions` | UUID injection into the options of a `CREATE TABLE` statement, and reading the UUIDs back |
| `Accounts` | Ethereum addresses as chain accounts |

How the model is built:

- Each pallet is a class whose methods update its maps in place. Each method is proved against a function on
  values (`SubmitData`, `Dispatch`, `OnInitialize`, ...), and the theorems are about runs of that function.
- An extrinsic runs in a storage layer: an error undoes every write and every event of the call. `Step` and `Apply`
  have this built in, and `IndexingPallet.Dispatch` shows it for a body that writes before it fails.
- Events are kept since genesis, so that the history can serve as the log the storage is compared with.
- The data hash is an injective constructor. Native conversion together with the commitment update is one input
  that may fail. Signatures, keccak, blake2, twox, UTF-8 and case mapping are function-valued parameters.
- The Merkle tree is a contract: a built tree holds exactly the hashes of the leaves it was given.
- Every lemma carries `{:induction false}`: no proof rests on automatic induction.
- The forwarder is a transition system in which any schedule of fetches, faults, submissions, crashes, restarts and
  inclusions may happen. A mark may enter the pool although its submission reported an error.

Where the code does something other than its comments or names suggest, the model follows the code:

- `attest_block` checks its argument against the current block but records under the attestation's own number
  (pallets/attestation/src/lib.rs:182). `OnlyPastIff` says when that matters. The check that refuses the current
  block is unreachable behind the one that refuses future blocks.
- The keystore describes a one-to-one mapping, but two accounts may register the same key (`KeyRegisteredTwice`,
  `RunOneToOneIff`).
- A comment bounds the dotted table identifier by 127 bytes; it can have 129. One length byte still holds it
  (`LengthByteIff`).
- UUID injection writes a column under its bare name, while the reader looks for `column_..._uuid`. A column is read
  back only if an option of that longer name is kept with its UUID, whoever wrote it (`ColumnReadsBackIff`).
- Votes are kept per batch and value, so a decision for one table may count votes cast for another
  (`OtherTableCounts`, `AgreedOnTableIff`).
- The block stream announces a retry after a fault, but then waits for a signal nobody sends (`StallLasts`).
- A stored last forwarded block of 0 restarts the forwarder at 0, as if nothing had been stored.
- With a payout budget of zero or a weightless payout call the rewards hook records eras it has not paid
  (`SettledKeptIff`).
- Two voters may give different decisions in different orders when one of them may also vote in the privileged scope
  (`OrderDoesNotMatterIff`). With a privileged threshold of 32 or more a full privileged list turns away voters with
  both rights, public vote included, so threshold + 1 fresh voters need not decide (`ReachableCanDecideIff`).
- The last forwarded block can be one whose processing never returned successfully: the mark is on its way before the
  process signals (`StoredNotCompletedIff`).
- The writer of table options folds names to upper case, the reader to lower case. A column named
  like the table UUID, but with a dotless i, takes its place and is then not found (`DotlessColumnHidesTable`).

## Model

| member | source | states |
|---|---|---|
| `Indexing.SubmittersByScope.WithSubmitter` | sxt-core/src/indexing.rs:63-78 | the account joins exactly one of the two sets, or the set is full and comes back unchanged with the account |
| `Indexing.First` | pallets/indexing/src/lib.rs:361-373 | the first n accounts in account order: a subset of the right size, with everything outside it larger |
| `Indexing.FirstUnique` | pallets/indexing/src/lib.rs:361-373 | that description leaves only one set |
| `Indexing.IndexingPallet.constructor` | pallets/indexing/src/lib.rs:88-96 | a new pallet is the genesis state |
| `Indexing.IndexingPallet.ClearBatch` | pallets/indexing/src/lib.rs:408-409 | the removal loop takes out the batch's lists and no others |
| `Indexing.IndexingPallet.SubmitAndFind` | pallets/indexing/src/lib.rs:318-392 | recording one vote in place gives the state, decision or error of the specification |
| `Indexing.IndexingPallet.Finalize` | pallets/indexing/src/lib.rs:399-472 | clearing, recording, block number and events together give the specified state, or the conversion's error |
| `Indexing.IndexingPallet.SubmitDataBody` | pallets/indexing/src/lib.rs:237-312 | the whole call body agrees with the specification on success and on every error |
| `Indexing.IndexingPallet.Dispatch` | pallets/indexing/src/lib.rs:237-312 | on error all four storage items are as before the call |
| `QuorumRuns.VoteEffect` | pallets/indexing/src/lib.rs:331-392 | a vote is accepted exactly when it is new and the list has room, and decides exactly past the threshold, so the `u8` cast loses nothing |
| `QuorumRuns.DissentersAreOpponents` | pallets/indexing/src/lib.rs:361-373 | the collected dissenters are exactly the accounts logged for another hash in that scope |
| `QuorumRuns.AcceptedCall` | pallets/indexing/src/lib.rs:281-309 | an accepted call is up to two votes and then at most one decision, public first, taken over both |
| `QuorumRuns.StepKeepsRefines` | pallets/indexing/src/lib.rs:237-312 | every call keeps storage and log in agreement |
| `QuorumRuns.ReachableRefinesLog` | pallets/indexing/src/lib.rs:318-411 | in every reachable state: pending lists are the logged voters, agreements the logged voters of the decided hash, dissents the first 32 opponents, decided batches have no votes, no list exceeds 32 |
| `QuorumDecisions.AcceptedIff` | pallets/indexing/src/lib.rs:248-311 | a call is accepted if and only if it is signed by a holder of the public right, or of the privileged right for that very table, for a scope with a threshold, is in time and well formed, is new and has room in every list it goes to, and converts when it decides |
| `QuorumDecisions.RejectedAs` | pallets/indexing/src/lib.rs:248-276 | origin, right, lateness, table, data, batch and schema are checked in this order, each with its own error |
| `QuorumDecisions.RejectedLate` | pallets/indexing/src/lib.rs:336-343 | a well-formed call is refused as already submitted exactly when one of its lists has the voter or no room; if it decides and does not convert, the error is the conversion's |
| `QuorumDecisions.SameValueIff` | pallets/indexing/src/lib.rs:281-309 | submissions are one value exactly when rows and block number agree |
| `QuorumDecisions.DecisionLeaves` | pallets/indexing/src/lib.rs:399-472 | after a call that decides, the table's block number is the given one, else the largest in the data, else the old one; the events are the announcement as empty exactly for a table without rows, and the system table's result exactly for a staking table; a call that does not decide leaves only its votes |
| `QuorumDecisions.StakingTableIff` | sxt-core/src/tables.rs:169-173 | a table is a staking table exactly when its namespace spells SXT_SYSTEM_STAKING |
| `QuorumDecisions.OtherBatchUntouched` | pallets/indexing/src/lib.rs:237-312 | a call for one batch changes no other batch's votes, decision or log |
| `QuorumDecisions.LateCallRejected` | pallets/indexing/src/lib.rs:476-488 | a decided batch rejects every later call without effect |
| `QuorumDecisions.DecidedForever` | pallets/indexing/src/lib.rs:408-411 | a decision survives every continuation unchanged |
| `QuorumDecisions.DecidedOnce` | pallets/indexing/src/lib.rs:399-411 | from genesis, a decision seen after any prefix is the decision at the end, and its votes are gone |
| `QuorumDecisions.VotesAuthorised` | pallets/indexing/src/lib.rs:248-276 | every logged vote was cast by a signed call of that account, which held the right of that scope, the privileged one for that table, at that moment |
| `QuorumDecisions.NoRightNoVote` | pallets/indexing/src/lib.rs:261-269 | in every run an account without the privileged right for a table casts no privileged vote for it, whatever other rights it has |
| `QuorumDecisions.ReachableAnnounced` | pallets/indexing/src/lib.rs:439-451 | in every reachable state there is exactly one announcement event per decided batch, in the order of the deciding calls, with its record or its table, agreements and dissents |
| `QuorumDecisions.ReachableWithinThreshold` | pallets/indexing/src/lib.rs:331-359 | for a batch of one table with fixed thresholds no pending list exceeds its threshold, a decision has exactly threshold + 1 agreements, and a threshold of 32 or more never decides |
| `QuorumReach.RejectedVote` | pallets/indexing/src/lib.rs:336-343 | with a full privileged list the call of a voter with both rights changes nothing, not even the public list |
| `QuorumReach.FreshVotesDecideIff` | pallets/indexing/src/lib.rs:281-309 | fresh public votes for one value decide an open batch if and only if they exceed one of the thresholds, not counting the calls a full privileged list rejects |
| `QuorumReach.ReachableCanDecideIff` | pallets/indexing/src/lib.rs:281-309 | from every undecided reachable state threshold + 1 fresh public votes decide if and only if the privileged threshold is below 32 or its list leaves room for the voters with both rights |
| `QuorumReach.FullListBlocksPublic` | pallets/indexing/src/lib.rs:336-343 | a run from genesis after which threshold + 1 fresh voters decide nothing |
| `QuorumOrder.MissingVotesDecision` | pallets/indexing/src/lib.rs:336-389 | when the privileged list stays within its threshold, or passes it only with the last vote, exactly the missing votes decide publicly on the old list plus all their signers, with the dissents of the start |
| `QuorumOrder.PrivilegedFirst` | pallets/indexing/src/lib.rs:281-309 | voters with both rights who come first and reach the privileged threshold decide there, alone |
| `QuorumOrder.OrderDoesNotMatterIff` | pallets/indexing/src/lib.rs:281-309 | all orders of the missing voters give the same agreements and dissents if and only if the privileged list cannot be exceeded, is not exceeded, or is exceeded only by the vote that decides publicly |
| `QuorumOrder.TwoScopesOrderShows` | pallets/indexing/src/lib.rs:281-309 | two voters from genesis whose two orders give different agreements |
| `QuorumTables.RunKeepsOnce` | pallets/indexing/src/lib.rs:336-355 | in every run an account votes at most once for a batch, value and scope |
| `QuorumTables.AgreedOnTableIff` | pallets/indexing/src/lib.rs:88-96 | in every reachable state all agreements of a decision voted for its table if and only if no vote for that batch, value and scope named another |
| `QuorumTables.OneTableAgreed` | pallets/indexing/src/lib.rs:318-392 | a batch submitted for one table only is decided for it by votes for it |
| `QuorumTables.OtherTableCounts` | pallets/indexing/src/lib.rs:318-392 | two votes from genesis, for two tables, that decide the second table together |
| `Forwarder.StepKeepsMarks` | event-forwarder/src/event_forwarder.rs:146-195 | no step marks a block unless it and all before it were handled |
| `Forwarder.ExecKeepsInv` | event-forwarder/src/chain_listener.rs:251-303 | marks, channel, block order and nonces stay in order under every schedule |
| `Forwarder.StoredBlocksHandled` | pallets/attestation/src/lib.rs:254-268 | over all runs, crashes and restarts, every block up to any value ever stored has had its events forwarded |
| `Forwarder.StoredIsLast` | pallets/attestation/src/lib.rs:254-268 | in every run the chain's value is the last one stored, not the largest |
| `Forwarder.PoolChanges` | event-forwarder/src/block_processing.rs:186-237 | only an accepted submission puts a mark of the current block into the pool, and only inclusion or the pool takes one out |
| `Forwarder.OnlyIncludesStore` | pallets/attestation/src/lib.rs:254-268 | only the inclusion of a mark stores a block, the mark's |
| `Forwarder.StoredNotCompletedIff` | event-forwarder/src/event_forwarder.rs:178-195 | a stored block never returned successfully if and only if every visit that put a mark of it into the pool died, ran out of retries or is still going on; there is such a visit |
| `Forwarder.FewBlocksLost` | event-forwarder/src/event_forwarder.rs:178-195 | the stored blocks that never returned successfully are at most as many as there were starts |
| `Forwarder.StoredButNotCompleted` | event-forwarder/src/event_forwarder.rs:178-195 | a schedule that stores block 0 without any block returning successfully |
| `Forwarder.RunDiscipline` | event-forwarder/src/chain_listener.rs:275-298 | within a run blocks are yielded consecutively from the start, nonces strictly rise, the channel is empty while a block is worked on, and the send never blocks |
| `Forwarder.RestartPoint` | event-forwarder/src/main.rs:264-284 | a restart begins right after the stored block with nothing unhandled before it, or at 0, with the chain's nonce and an empty channel |
| `Forwarder.StallLasts` | event-forwarder/src/chain_listener.rs:275-298 | a run waiting on the empty channel never moves again without a restart |
| `Forwarder.NoBlockIsLost` | event-forwarder/src/main.rs:264-284 | from every reachable state some continuation handles any given block |
| `ForwarderProcess.Process.constructor` | event-forwarder/src/main.rs:264-284 | a new process is the machine's restart |
| `ForwarderProcess.Process.MarkBlockForwarded` | event-forwarder/src/block_processing.rs:186-237 | exactly the consecutive nonces up to the first reported success are tried, at most four, the accepted ones enter the pool, and the result is the nonce after it or nothing |
| `ForwarderProcess.Process.ProcessBlock` | event-forwarder/src/event_forwarder.rs:146-229 | success is signalled, and the block completed, exactly when it was handled and an attempt reported success |
| `ForwarderProcess.Process.FetchAndProcess` | event-forwarder/src/chain_listener.rs:275-298 | a failed fetch or a failed block leaves the channel empty |
| `ForwarderProcess.Process.Listen` | event-forwarder/src/chain_listener.rs:136-161 | the loop goes through exactly the leading fault-free blocks and stalls at the first fault, as machine steps |
| `ForwarderProcess.LeadingSuccesses` | event-forwarder/src/chain_listener.rs:136-161 | the number of blocks before the first fault |
| `Rewards.RewardsPallet.constructor` | pallets/rewards/src/lib.rs:133-149 | starts at era 0 with no payer |
| `Rewards.RewardsPallet.PayPending` | pallets/rewards/src/lib.rs:188-216 | the filter, take and map loop gives the walk's pages and events and the summed weight of its calls |
| `Rewards.RewardsPallet.Hook` | pallets/rewards/src/lib.rs:133-226 | the hook in place agrees with the specification |
| `Rewards.WeightIsSum` | pallets/rewards/src/lib.rs:214-216 | the reduced weight is the sum over the calls, stopping at the largest 64-bit number |
| `Rewards.WeightZeroIff` | pallets/rewards/src/lib.rs:215-218 | the reduced weight is zero exactly when there was no call or calls weigh nothing |
| `Rewards.CallsIffPending` | pallets/rewards/src/lib.rs:188-195 | a payout is attempted exactly when the budget is positive and a holder is pending |
| `Rewards.WalkCalls` | pallets/rewards/src/lib.rs:188-213 | whatever is refused, the walk calls for exactly the first pending holders, as many as the budget allows, and reports each in order as paid or refused |
| `Rewards.WalkTakes` | pallets/rewards/src/lib.rs:188-213 | exactly the holders called for and not refused lose a page, one each, and nothing else changes |
| `Rewards.CallsWithinBudget` | pallets/rewards/src/lib.rs:188-213 | refused calls use up the budget: there is one event per call and never more than the budget |
| `Rewards.HookReports` | pallets/rewards/src/lib.rs:133-226 | the events of a block: none when caught up, status and error without a payer, else status, one report per call, and the era as paid exactly when it moves on |
| `Rewards.PayListOnlyLowers` | pallets/rewards/src/lib.rs:188-213 | a walk only lowers pages, and only of holders of that era that are not refused |
| `Rewards.HookAdvancesIff` | pallets/rewards/src/lib.rs:137-222 | the era moves by one exactly when it is behind, a payer is set and nothing is pending, else not at all |
| `Rewards.RunSettled` | pallets/rewards/src/lib.rs:137-222 | in every run recorded eras have nothing pending, the record never passes the active era and rises by at most one per step |
| `Rewards.NotPayingSkipsEra` | pallets/rewards/src/lib.rs:215-222 | for every configuration without budget or weight, a state in which an unpaid era is recorded |
| `Rewards.SettledKeptIff` | pallets/rewards/src/lib.rs:215-222 | the hook keeps recorded eras paid if and only if budget and call weight are non-zero |
| `Rewards.RefusedValidatorBlocks` | pallets/rewards/src/lib.rs:196-222 | a pending validator whose payouts keep failing holds the era for the whole run |
| `Rewards.PayoutsBalance` | pallets/rewards/src/lib.rs:196-213 | while an era is paid, the pages each validator loses are its payout events plus what others paid between the blocks |
| `Rewards.PaidBetweenNonNegative` | pallets/rewards/src/lib.rs:196-213 | that second part is never negative |
| `RewardsBound.WalkPays` | pallets/rewards/src/lib.rs:188-213 | every call pays one page, and a walk that does not use its budget pays every pending holder |
| `RewardsBound.GoodBlockPays` | pallets/rewards/src/lib.rs:188-222 | a block with something pending uses up one of the counted blocks |
| `RewardsBound.EraPaidWithin` | pallets/rewards/src/lib.rs:188-222 | t pages, at most p each, m per block: recorded within floor((t - p) / m) + p + 1 blocks, in any validator order, whatever others pay in between |
| `RewardsBound.PlainBound` | pallets/rewards/src/lib.rs:188-222 | that bound is at most floor(t / m) + p + 1 |
| `RewardsBound.BoundIsReached` | pallets/rewards/src/lib.rs:188-222 | for every m, t and p some era needs all of them |
| `EraPayout.YearlyIsExact` | runtime/src/lib.rs:469-485 | the yearly emission is exactly 7.9% of the stake rounded down, in every rounding mode |
| `EraPayout.PayoutMonotone` | runtime/src/lib.rs:469-485 | a larger stake or a longer era never pays less |
| `EraPayout.ShareError` | runtime/src/lib.rs:469-485 | the era's share of a year is off by at most one unit of 10^-18 and always fits 128 bits |
| `EraPayout.PayoutShare` | runtime/src/lib.rs:469-485 | a payout is that share of the emission, short by less than one unit unless it saturates at 128 bits, which no era within a year does |
| `EraPayout.DivideIs` | runtime/src/lib.rs:469-485 | what each rounding mode of the division means: below, above, or nearest with the tie up or down |
| `EraPayout.NothingLeftOver` | runtime/src/lib.rs:469-485 | nothing goes to the treasury, and the year is 365.25 days |
| `EraPayout.YearPaysAtMost` | runtime/src/lib.rs:469-485 | n eras within a year pay at most y + n y / 10^18 |
| `EraPayout.YearPaysAtLeast` | runtime/src/lib.rs:469-485 | n eras that make up a year pay at least y - n y / 10^18 - n |
| `Permissions.EnsureRootOrPermissioned` | pallets/permissions/src/lib.rs:185-200 | succeeds exactly for root, naming nobody, and for signed holders, naming the signer; a missing right and a missing signature have their own errors |
| `Permissions.PermissionsPallet.constructor` | pallets/permissions/src/lib.rs:83-94 | starts with the given lists and no events |
| `Permissions.PermissionsPallet.Execute` | pallets/permissions/src/lib.rs:83-161 | storage follows the specification, and the event carries the list now stored |
| `Permissions.DispatchOkIff` | pallets/permissions/src/lib.rs:83-161 | when each of the three calls succeeds |
| `Permissions.RejectedAs` | pallets/permissions/src/lib.rs:83-161 | the right is checked first; then the empty list, the permission already held and the full list have their own errors |
| `Permissions.ListAfter` | pallets/permissions/src/lib.rs:83-161 | a successful call leaves exactly the given list, no list, or the old list with the permission at its end |
| `Permissions.EffectOfCall` | pallets/permissions/src/lib.rs:83-161 | what every account holds after a successful call, for every permission |
| `Permissions.LogTellsHeld` | pallets/permissions/src/lib.rs:83-161 | after every run each account holds the list of its last event, or its initial one |
| `Permissions.StepKeepsDerived` | pallets/permissions/src/lib.rs:131-161 | a call without root grants only what strips from an initial permission, if `UpdatePermissions` does not |
| `Permissions.UpdateGrantsAnything` | pallets/permissions/src/lib.rs:83-161 | otherwise some run without root gives any account any permission |
| `Permissions.ConfinedIffNoUpdate` | sxt-core/src/permissions.rs:19-44 | delegation stays within the initial permissions and their inner layers, in all runs without root, if and only if no initial permission strips to `UpdatePermissions` |
| `Permissions.ConfinedNestingNeverGrows` | sxt-core/src/permissions.rs:19-44 | in such runs the nesting depth never grows |
| `Attestations.CreateAttestationMessage` | sxt-core/src/attestation.rs:296-304 | the buffer is the state root and eight big-endian bytes |
| `Attestations.DigestMeansOneBlock` | sxt-core/src/attestation.rs:250-256 | the digest a signature is checked against stands for one state root and block number, unless keccak confuses the two messages compared |
| `Attestations.PreimageInjective` | sxt-core/src/attestation.rs:250-256 | the preimage determines the message, although its decimal length has no fixed width |
| `Attestations.DecimalReads` | sxt-core/src/attestation.rs:250-256 | the length is written in decimal digits without a leading zero that read as the number |
| `Attestations.SignedDigest` | sxt-core/src/attestation.rs:214-256 | a signature is checked against the keccak of the personal-message prefix, the decimal length and the message |
| `Attestations.AttestationDigest` | sxt-core/src/attestation.rs:214-256 | for a block with a 32-byte root these bytes are the prefix, "40", the root and eight big-endian bytes |
| `Attestations.SignedMessageInjective` | sxt-core/src/attestation.rs:296-304 | the preimage determines state root and block number |
| `Attestations.AttestationPallet.constructor` | pallets/attestation/src/lib.rs:153-222 | a new pallet is the genesis state |
| `Attestations.AttestationPallet.MustNotHaveSubmitted` | pallets/attestation/src/lib.rs:284-300 | the scan fails exactly when a recorded attestation has that public key |
| `Attestations.AttestationPallet.VerifyEthereumMsg` | pallets/keystore/src/lib.rs:256-274 | the check reads the submitter's stored key and agrees with the specification on every error |
| `Attestations.AttestationPallet.AttestBlock` | pallets/attestation/src/lib.rs:153-222 | attesting in place agrees with the specification on success and on every error |
| `Attestations.AttestationPallet.MarkForwarded` | pallets/attestation/src/lib.rs:254-268 | the last forwarded block is set, not maximised, and nothing else changes |
| `Attestations.AttestationPallet.EditKey` | pallets/keystore/src/lib.rs:104-205 | registering and removing keys in place agree with the specification |
| `Attestations.AcceptedIff` | pallets/attestation/src/lib.rs:153-268 | when each of registering, unregistering, attesting and marking is accepted |
| `Attestations.RejectedAs` | pallets/keystore/src/lib.rs:104-205 | each call's first failing check names its error |
| `Attestations.AttestationRejectedAs` | pallets/attestation/src/lib.rs:160-218 | right, stored key, matching key, signature, repetition and room are checked in this order, each with its own error |
| `Attestations.EffectOfCall` | pallets/attestation/src/lib.rs:153-268 | what an accepted call does to every account's key, every block's list, the last forwarded block, which is set and not maximised, and the events |
| `Attestations.StepKeepsInv` | pallets/attestation/src/lib.rs:176-218 | every call keeps the invariant below |
| `Attestations.ReachableAttestations` | pallets/attestation/src/lib.rs:176-218 | in every reachable state keys and lists are what the history says, a list has at most 64 attestations of its own block with different public keys, and each was verified with the key its submitter held at that moment |
| `Attestations.RecordedSignatureMeans` | sxt-core/src/attestation.rs:214-243 | in every run a recorded signature recovers its key from a digest that no other root and block have, unless keccak confuses the two |
| `Attestations.OnlyPastIff` | pallets/attestation/src/lib.rs:176-190 | a call keeps the records to past blocks if and only if it is rejected, no attestation, or its attestation's own number is past |
| `Attestations.RunOnlyPastIff` | pallets/attestation/src/lib.rs:160-190 | along a run the records stay in the past after every call if and only if every accepted attestation's own number was past at its call |
| `Attestations.FutureBlockCanBeRecorded` | pallets/attestation/src/lib.rs:160-190 | from genesis, for any key and signatures that verify, a registration and a call for block 0 record an attestation for block 5 at block 1 |
| `Keystore.OneToOneIff` | pallets/keystore/src/lib.rs:104-205 | a call keeps keys one-to-one if and only if it is not a root registration, with a verifying signature and for an account without a key, of a key another account has |
| `Keystore.RunOneToOneIff` | pallets/keystore/src/lib.rs:104-205 | along a run the mapping is one-to-one after every call if and only if no call is such a registration |
| `Keystore.KeyRegisteredTwice` | pallets/keystore/src/lib.rs:104-131 | from genesis, for any key and signatures that verify, two registrations give two accounts the same key |
| `Keystore.AccountAsMessageIff` | sxt-core/src/attestation.rs:296-304 | the 32 bytes signed to register an account are the attestation message of exactly one root and number |
| `Keystore.RegistrationApartIff` | sxt-core/src/attestation.rs:296-304 | that number is one a 32-bit block can have if and only if bytes 24 to 27 of the account are zero |
| `Scale.CompactRoundTrip` | attestation_tree/src/prefix_foliate.rs:54-84 | a compact length reads back with exactly the following bytes left over |
| `Scale.CompactCanonical` | attestation_tree/src/prefix_foliate.rs:54-84 | a compact length that reads at all is the encoding of what it reads as |
| `Scale.RoundTrip` | attestation_tree/src/prefix_foliate.rs:54-84 | every typed value decodes to itself, whatever follows it |
| `Scale.Canonical` | attestation_tree/src/prefix_foliate.rs:54-84 | bytes that decode are the encoding of the value, and the value is typed |
| `Scale.CompactForm` | attestation_tree/src/prefix_foliate.rs:54-84 | a compact length takes one, two, four or five bytes by size and reads as 4n plus the mode |
| `Scale.ScalarForm` | attestation_tree/src/prefix_foliate.rs:54-84 | the byte form of booleans, integers, fixed bytes, enumerations and empty options |
| `Scale.CompositeForm` | attestation_tree/src/prefix_foliate.rs:54-84 | the byte form of options, pairs and lists from their parts |
| `Scale.ItemsInOrder` | attestation_tree/src/prefix_foliate.rs:54-84 | a list's items follow one another in order |
| `Endian.LittleEndianDigit` | attestation_tree/src/prefix_foliate.rs:54-84 | byte i of an integer is its base-256 digit of weight 256^i |
| `Endian.BigEndianReversed` | attestation_tree/src/locks_staking_prefix_foliate.rs:28-51 | a big-endian field is the little-endian one backwards |
| `Endian.BigEndianInjective` | attestation_tree/src/locks_staking_prefix_foliate.rs:28-51 | a fixed-width field determines its number |
| `Endian.BigEndianCanonical` | sxt-core/src/attestation.rs:296-304 | every byte string is the big-endian form of its number |
| `Endian.BigEndianReads` | attestation_tree/src/locks_staking_prefix_foliate.rs:28-51 | a number that fits its field reads back from it |
| `StorageKeys.StorageKeySuffix` | attestation_tree/src/hash_and_key.rs:57-69 | extending one buffer key by key gives the specified suffix |
| `StorageKeys.HasherWrites` | attestation_tree/src/hash_and_key.rs:57-69 | each hasher writes its own digest of the encoded key, or none, and then the encoded key |
| `StorageKeys.SuffixAppend` | attestation_tree/src/hash_and_key.rs:57-69 | keys are written one after the other |
| `StorageKeys.DecodeKeyTuple` | attestation_tree/src/hash_and_key.rs:41-54 | advancing one cursor past digests and keys gives the specified result |
| `StorageKeys.SuffixRoundTrip` | attestation_tree/src/hash_and_key.rs:41-69 | for every list of hashed keys, decoding the suffix gives the keys and exactly what follows |
| `StorageKeys.DigestIgnored` | attestation_tree/src/hash_and_key.rs:41-54 | any digest bytes of the right width decode alike |
| `StorageKeys.SuffixCanonicalIff` | attestation_tree/src/hash_and_key.rs:41-69 | decoded bytes re-encode to themselves if and only if every digest is the right one |
| `StorageKeys.EntryRoundTrip` | attestation_tree/src/prefix_foliate.rs:54-125 | the storage key of a tuple and the encoded value decode to that tuple and value, no bytes left |
| `StorageKeys.EntryTyped` | attestation_tree/src/prefix_foliate.rs:54-84 | whatever decodes is typed, and its value bytes are the value's encoding |
| `StorageKeys.EntryRefusedAs` | attestation_tree/src/prefix_foliate.rs:54-84 | an entry is refused by its prefix, then its key, then its value, and bytes left over have their own errors |
| `StorageKeys.EntryKeyIff` | attestation_tree/src/prefix_foliate.rs:54-125 | a readable entry lies under the storage key of its keys if and only if its digests are right |
| `AttestationTree.CommitmentLeafEqualIff` | attestation_tree/src/commitment_map_prefix_foliate.rs:28-49 | two commitment leaves agree if and only if dotted names, schemes and commitments do; the length byte never truncates |
| `AttestationTree.LengthByteIff` | attestation_tree/src/commitment_map_prefix_foliate.rs:28-49 | the length byte is the identifier's length if and only if that is below 256; stored identifiers reach 129 and no more |
| `AttestationTree.CommitmentLeafInjective` | attestation_tree/src/commitment_map_prefix_foliate.rs:28-49 | period-free namespaces make the leaf determine identifier, scheme and bytes |
| `AttestationTree.PeriodInNamespace` | attestation_tree/src/commitment_map_prefix_foliate.rs:28-49 | with a period two identifiers share a leaf |
| `AttestationTree.StakeLeafInjective` | attestation_tree/src/locks_staking_prefix_foliate.rs:28-51 | a stake leaf determines account, amount, chain id and address |
| `AttestationTree.StakingAmountAt` | attestation_tree/src/locks_staking_prefix_foliate.rs:38-46 | the amount in a leaf is that of the first lock whose id spells "staking " |
| `AttestationTree.NoStakingAmount` | attestation_tree/src/locks_staking_prefix_foliate.rs:38-46 | without such a lock it is 0 |
| `AttestationTree.StakeLayout` | attestation_tree/src/locks_staking_prefix_foliate.rs:28-51 | a stake leaf is account, fifteen zero bytes, amount, chain id and address, in 115 bytes |
| `AttestationTree.CommitmentLayout` | attestation_tree/src/commitment_map_prefix_foliate.rs:28-49 | a commitment leaf is the length byte, namespace, period, name, scheme and commitment |
| `AttestationTree.LocksKeyForm` | attestation_tree/src/locks_staking_prefix_foliate.rs:20-21 | locks lie under prefix, blake2 digest and account |
| `AttestationTree.CommitmentKeyForm` | attestation_tree/src/commitment_map_prefix_foliate.rs:20-24 | commitments lie under prefix, digest and identifier, digest and scheme |
| `AttestationTree.CommitmentsFirst` | attestation_tree/src/attestation_tree.rs:76-106 | the tree's leaves begin with the commitments in storage order |
| `AttestationTree.LocksNext` | attestation_tree/src/attestation_tree.rs:76-106 | the locks follow in storage order, each read with the contract info, and nothing else follows |
| `AttestationTree.LeavesFollowEntries` | attestation_tree/src/prefix_foliate.rs:98-110 | one leaf per entry in order, or the error of the first bad entry |
| `AttestationTree.BuildFailsIff` | attestation_tree/src/attestation_tree.rs:76-106 | building fails on storage if and only if some entry of either map is unreadable |
| `AttestationTree.ErrorOfFirst` | attestation_tree/src/attestation_tree.rs:76-106 | the error is that of the first unreadable commitment, and a lock's only if all commitments are readable |
| `AttestationTree.ProvableIff` | attestation_tree/src/attestation_tree.rs:31-47 | a leaf is found if and only if one with its hash was built from, and if and only if it was itself, when its hash differs from the other leaves' |
| `AttestationTree.EveryEntryProvable` | attestation_tree/src/attestation_tree.rs:31-106 | every entry of a built tree is provable with its decoded key and value |
| `AttestationTree.WrittenEntryLeaf` | attestation_tree/src/prefix_foliate.rs:87-125 | an entry written from typed keys and value gives the leaf of those |
| `AttestationTree.LocksWithInfo` | attestation_tree/src/attestation_tree.rs:76-106 | stored locks followed by the encoded contract info are the encoding of the pair |
| `AttestationTree.EqualStakeLeaves` | attestation_tree/src/prefix_foliate.rs:87-95 | equal lock leaves come from the same account, contract and amount, that of the first "staking " lock or 0 |
| `AttestationTree.EqualCommitmentLeaves` | attestation_tree/src/prefix_foliate.rs:87-95 | equal commitment leaves with period-free namespaces come from the same entry |
| `StakeProofs.ReadsAsCommitmentIff` | attestation_tree/src/commitment_map_prefix_foliate.rs:28-49 | bytes are the leaf of some commitment if and only if they read as a length, an identifier with a fitting period, a scheme and a bounded rest |
| `StakeProofs.ProofsMeanStorageIff` | attestation_tree/src/attestation_tree.rs:31-106 | for any stake and any map prefixes, proofs of it mean storage in all trees that tell its leaf apart if and only if its leaf does not read as a commitment's |
| `StakeProofs.StakeProvableIffStored` | attestation_tree/src/attestation_tree.rs:31-106 | for an account the forwarder forwards, a stake is provable if and only if storage holds that account with that contract and, in its first "staking " lock, that amount, when its hash differs from the other leaves' |
| `StakeProofs.StakeSharesLeaf` | attestation_tree/src/prefix_foliate.rs:87-95 | an account all of whose stakes read as commitments |
| `StakeProofs.ProvableWithoutLocks` | attestation_tree/src/attestation_tree.rs:31-106 | for every stake that reads as a commitment and any prefixes, a tree without locks in which it is provable |
| `TableOptions.SortIsStable` | sxt-core/src/tables.rs:527-532 | the sort is ordered and keeps the entries of each folded name in order |
| `TableOptions.SortedUnique` | sxt-core/src/tables.rs:527-532 | order and stability determine the list, so any stable sort gives this one |
| `TableOptions.DedupKeepsFirst` | sxt-core/src/tables.rs:533-533 | on a sorted list the dedup keeps the first entry of each name and is strictly sorted |
| `TableOptions.UpdateOptions` | sxt-core/src/tables.rs:492-538 | chain, sort and dedup in place give the merge, or the error for a table UUID that is not UTF-8 |
| `TableOptions.CollectColumns` | sxt-core/src/tables.rs:508-522 | the filtering loop gives the specified entries |
| `TableOptions.ColumnEntry` | sxt-core/src/tables.rs:508-522 | a column becomes an entry with its name and UUID exactly when both are UTF-8, and is dropped otherwise |
| `TableOptions.ColumnEntriesAppend` | sxt-core/src/tables.rs:508-522 | columns keep their order |
| `TableOptions.DedupEntries` | sxt-core/src/tables.rs:533-533 | the loop over neighbours is the specified dedup |
| `TableOptions.SortEntries` | sxt-core/src/tables.rs:527-532 | the loop is the specified stable sort |
| `TableOptions.MergeIsFirstWins` | sxt-core/src/tables.rs:508-535 | the merge is strictly sorted and holds, for each case-insensitive name, the first of columns, table UUID and existing options |
| `TableOptions.MergeHolds` | sxt-core/src/tables.rs:508-535 | the merge holds for each folded name the first writable column of it, else the table UUID, else the first existing option, else nothing |
| `TableOptions.LessIff` | sxt-core/src/tables.rs:527-532 | the order is the dictionary order of bytes |
| `TableOptions.MergeUnique` | sxt-core/src/tables.rs:508-535 | any strictly sorted first-wins list is the merge |
| `TableOptions.MergeIdempotent` | sxt-core/src/tables.rs:508-535 | merging the same UUIDs again changes nothing |
| `TableOptions.OptionText` | sxt-core/src/tables.rs:504-678 | the names written and looked for are TABLE_UUID, table_uuid, column_ and _uuid |
| `TableOptions.ExtractIff` | sxt-core/src/tables.rs:636-643 | a column name is found exactly between prefix and suffix, and the slice panics exactly on "column_uuid" |
| `TableOptions.ReadColumnsIff` | sxt-core/src/tables.rs:656-684 | the columns read are exactly the options with both affixes and a fitting value |
| `TableOptions.ReadColumnsAppend` | sxt-core/src/tables.rs:656-676 | columns are read in the order of their options |
| `TableOptions.UuidsFromOptions` | sxt-core/src/tables.rs:656-684 | the assigning loop gives the specified result, panics included |
| `TableOptions.MergeSortsSurvivors` | sxt-core/src/tables.rs:508-535 | the merge is the sorted list of the entries with no earlier entry of the same folded name |
| `TableOptions.ReadColumnsOkIff` | sxt-core/src/tables.rs:656-676 | reading columns panics exactly on "column_uuid" and on names or values that are too long, and counts the column options |
| `TableOptions.ReadTableIsLast` | sxt-core/src/tables.rs:677-683 | the table UUID read is the last option that lower-cases to its name, and reading panics exactly if one of them is too long |
| `TableOptions.TableUuidReadsBackIff` | sxt-core/src/tables.rs:492-684 | `uuids_from_sqlparser` returns the supplied table UUID if and only if the kept options hold nothing it panics on and at most 64 columns, and the first column that upper-cases to the table UUID's name, if any, also lower-cases to it and carries the same value (or the UUID is empty and it does not) |
| `TableOptions.ReadsIff` | sxt-core/src/tables.rs:656-684 | reading the merged options panics if and only if a kept option is unreadable or more than 64 are columns |
| `TableOptions.ColumnsReadIff` | sxt-core/src/tables.rs:492-684 | the columns read from the merge are exactly the affixed options it keeps |
| `TableOptions.ColumnReadsBackIff` | sxt-core/src/tables.rs:492-684 | a column is returned with its UUID if and only if reading does not panic and the first entry that upper-cases like "column_<name>_uuid" is spelled so and carries that UUID |
| `TableOptions.PlainColumnLost` | sxt-core/src/tables.rs:508-524 | a column supplied under its plain name is not returned, unless its name or the table UUID's folds like its own option |
| `TableOptions.AffixedColumnReadsBack` | sxt-core/src/tables.rs:508-684 | a column supplied under its affixed name is returned under the plain one |
| `TableOptions.OptionKeepsColumn` | sxt-core/src/tables.rs:508-684 | a plain column is returned when the statement already has its affixed option with the same UUID |
| `TableOptions.ColumnX` | sxt-core/src/tables.rs:508-684 | the first two at a column named "x" |
| `TableOptions.ColumnUuidOptionPanics` | sxt-core/src/tables.rs:636-676 | an existing option "column_uuid" makes the reader panic although the table UUID is in place |
| `TableOptions.HiddenByColumn` | sxt-core/src/tables.rs:508-684 | a column that only upper-cases to the name hides the table UUID even with the same value |
| `TableOptions.DotlessColumnHidesTable` | sxt-core/src/tables.rs:508-684 | the dotless i makes such a column name |
| `Accounts.PadInPlace` | sxt-core/src/utils.rs:42-57 | the zeroed array with its tail overwritten is twelve zeros and the address |
| `Accounts.HexRoundTrip` | sxt-core/src/utils.rs:42-57 | hex text decodes to the bytes it was written from |
| `Accounts.HexValueIff` | sxt-core/src/utils.rs:42-57 | a byte is a hex digit exactly when it is 0-9, a-f or A-F, with its place as value |
| `Accounts.DecodeHexIff` | sxt-core/src/utils.rs:42-57 | text decodes exactly when it is an even number of hex digits, pair by pair |
| `Accounts.TrimPrefixIs` | sxt-core/src/utils.rs:42-57 | every leading "0x" is dropped and nothing else |
| `Accounts.AcceptedIff` | sxt-core/src/utils.rs:42-57 | a text is accepted exactly when forty hex digits remain; other digits and other lengths have their own errors |
| `Accounts.AccountBytes` | sxt-core/src/utils.rs:42-57 | the account is twelve zeros and the twenty bytes the digits spell |
| `Accounts.AddressRoundTrip` | sxt-core/src/utils.rs:42-57 | the account made from a 20-byte address passes the forwarder's filter and gives that address back |
| `Accounts.ForwardableIff` | event-forwarder/src/event_forwarder.rs:266-361 | an account passes the filter exactly when it comes from an address, and from only one |
| `Accounts.AcceptedIsForwardable` | sxt-core/src/utils.rs:42-57 | every text that is accepted gives a forwardable account |

## Left out

- RPC, subxt and alloy clients, command lines, metrics, the node service and the chain specification: plumbing without a property of this kind.
- ECDSA, keccak, blake2, twox, Proof of SQL commitments, Arrow and postcard: parameters with the few facts named above; where a hash is read backwards, the values compared are assumed not to collide.
- The bodies of the tables, commitments, system tables and staking pallets: inputs of the modelled calls; staking is pages left per era and validator.
- The weight returned by the rewards hook: its additions are discarded in the code.
- Length bounds of batch ids, row data and identifiers at decoding: enforced before the calls; only the identifier bound is used, where leaves need it.
- Overflow of 32- and 64-bit block numbers, era indices and nonces: these are natural numbers here; the fixed-width message and leaf fields are modelled as such.
- Account ids are natural numbers, ordered as the code orders its 32-byte accounts.
- Public thresholds of 32 or more in the results on reaching a decision: no public list can exceed them, as `ReachableWithinThreshold` states.
- The order of values in `BlockNumbers`: overwritten by every decision, so there is none to prove.
- The text of SQL statements and the error for a statement that is too long: options are a list of names and values.
- The full Unicode case mappings: parameters of which only what holds for the table UUID's name is asked; the failing input uses a mapping for ASCII and the dotless i.
- The rounding mode of the fixed-point library: left open, the payout results hold for each mode.
- Chain reorganisations, and other accounts that mark blocks forwarded: the forwarder's chain is linear and the forwarder is the only marker.
- The order in which the pool includes marks: any order is allowed, which is more than a chain with nonces does.
- Single unstakes of a block: the code only logs a failed one, so a handled block's events were attempted, not all accepted.
- The data loader, `watcher verify`, the kitchen-sink runtime tests, benchmarks and generated weights.
