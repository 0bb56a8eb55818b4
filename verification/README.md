# Partner chains toolkit: a verified model

This project models the stateful core of a partner chain: a chain whose validator committee, block
participation data and token transfers are all driven by observations of the Cardano main chain.
Every node must derive the same inherent data from what it observes, and the pallets must stay
consistent over any run of blocks. `dafny verify dfyconfig.toml` checks everything.

* **Committee rotation.** `CommitteeTypes`, `SessionAccounts`, `KeyRegistration`, `RotationSpec`,
  `CommitteePallet` (the imperative pallet, proved against the specification), `RotationRuns`,
  `InherentAgreement`, `CatchUp`, `SeatedCommittee`, `SelectionEpochs`.
* **Block participation.** `ProductionLog`, `LogAccounting`, `BlockCounting`, `Collections`,
  `ParticipationData`, `ParticipationContents`.
* **Token bridge.** `BridgeSource`, `BridgePallet`, `BridgeRecipients`, `BridgeTokens`, `BridgeCache`.
* **Selection inputs and smaller cores.** `CandidateKeys`, `RegistrationFilter`, `JsonConfig`,
  `MetadataDeposits`, `BlockSearch`.

Storage that the source updates in place is a class whose methods are proved equal to functions on a
state value; runs, invariants and agreement between nodes are then lemmas about those functions.
Blocks and extrinsics are transactional: a failing call leaves no trace, and a panic while a block is
initialised rejects the block.

## Where the code falls short of the intended property

Each of these is proved with a concrete input or a family of inputs, together with the exact condition under
which the property holds.

* A block that releases participation data appends its own log entry before the clean-up, which then
  removes that entry although it was never released (`LogAccounting`).
* Committee members that exchange session keys: the first one to be registered ends up with no keys,
  because the other still owns them at that moment (`KeyRegistration`), and its seat is then missing from the
  active validators (`SeatedCommittee`).
* Retiring an account panics when another pallet keeps a consumer but no provider reference on it
  (`SessionAccounts`, with a run from genesis in `RotationRuns`).
* In block 1 proposer and verifier may read inputs of different epochs unless the slot duration divides
  the epoch duration (`SelectionEpochs`).
* A transfer limit of zero skips pending transfers, and observing a block behind the checkpoint repeats delivered
  ones (`BridgePallet`). The cached source never loads outputs of main chain block 0. Overlapping requests can be
  served outputs of each other's address if they are for different scripts, and can be refused although they have
  just filled the cache, even if they are for the same scripts (`BridgeCache`).
* A transaction outside the documented contract rule releases less than it locks (`BridgeTokens`). Amounts are also
  cut from 128 to 64 bits; this concerns the type only, since no main chain output holds 2^64 or more of a token.
* Candidate keys of wrong sizes whose total is right are accepted and cut elsewhere (`CandidateKeys`).
* A non-finite active slots coefficient is saved but cannot be loaded (`JsonConfig`).
* The block search overflows 32-bit arithmetic from a best block of 2^31 on (`BlockSearch`).

Where code and comments disagree the model follows the code: `create_inherent` is documented to act when
the validator list changed, but creates a call whenever the next committee is missing; `unprovide_account`
says that it cannot fail, but fails exactly as described above.

## Model

| member | source | states |
|---|---|---|
| CommitteePallet.Runtime.Genesis | toolkit/committee-selection/pallet/src/lib.rs:411-428 | the genesis storage is the specified one: committee of epoch 0, provided accounts with one more provider each, genesis session sets |
| CommitteePallet.Runtime.OnInitialize | toolkit/committee-selection/pallet/src/lib.rs:433-442 | block 1 copies the chain epoch into the current committee; other blocks leave the committee alone |
| CommitteePallet.Runtime.ShouldEndSession | toolkit/committee-selection/pallet/src/pallet_session_support.rs:151-176 | the answer and the only storage write, the rotation stage, refine the specified decision |
| CommitteePallet.Runtime.RegisterCommittee | toolkit/committee-selection/pallet/src/pallet_session_support.rs:48-70 | the registration loop yields exactly the account set of the committee and the specified key registry |
| CommitteePallet.Runtime.RetireAccounts | toolkit/committee-selection/pallet/src/pallet_session_support.rs:72-75 | the clean-up loop, in whatever order the departed accounts are visited, panics exactly when one of them is blocked and otherwise retires all of them |
| CommitteePallet.Runtime.NewSession | toolkit/committee-selection/pallet/src/pallet_session_support.rs:34-80 | rotation of committee, providers and keys refines the specified step; a panic leaves the state as it was |
| CommitteePallet.Runtime.EndSessionIfDue | toolkit/committee-selection/pallet/src/pallet_session_support.rs:151-176 | session rotation of a block refines the specification: queued set becomes active, the new queue is the committee filtered by registered keys |
| CommitteePallet.Runtime.Set | toolkit/committee-selection/pallet/src/lib.rs:538-558 | stores the next committee, or reports why not and changes nothing |
| CommitteePallet.Runtime.ExecuteBlock | toolkit/committee-selection/pallet/src/lib.rs:433-558 | a whole block of imperative steps equals the specified state transition, including when it fails |
| SessionAccounts.AccountsAtMostSeats | toolkit/committee-selection/pallet/src/pallet_session_support.rs:77 | a committee never has more accounts than seats, so the conversion to a bounded set cannot fail |
| SessionAccounts.RegisterMemberKeeps | toolkit/committee-selection/pallet/src/pallet_session_support.rs:51-70 | one registration step leaves references of other pallets, disjointness of keys and the keys of other accounts intact |
| SessionAccounts.RegisterKeeps | toolkit/committee-selection/pallet/src/pallet_session_support.rs:51-70 | the whole loop adds one provider per new account and touches no foreign reference and no outsider |
| SessionAccounts.RetireOneMore | toolkit/committee-selection/pallet/src/pallet_session_support.rs:72-75 | departed accounts are handled independently of each other |
| SessionAccounts.RetireKeeps | toolkit/committee-selection/pallet/src/pallet_session_support.rs:72-75 | retiring removes exactly one provider of each departed account and no foreign reference |
| SessionAccounts.RotateAccountsPanics | toolkit/committee-selection/pallet/src/pallet_session_support.rs:137-144 | a rotation panics if and only if a departing account has a foreign consumer and no foreign provider |
| SessionAccounts.RotateAccountsKeeps | toolkit/committee-selection/pallet/src/pallet_session_support.rs:48-77 | provider references move from the departed accounts to the seated ones; departed accounts lose their keys; outsiders keep theirs |
| KeyRegistration.RegisterFirstSeat | toolkit/committee-selection/pallet/src/pallet_session_support.rs:93-127 | reaching the first seat of an account registers its keys if and only if they are free, and leaves it with none otherwise |
| KeyRegistration.OwnedByAnotherAtSeat | toolkit/committee-selection/pallet/src/pallet_session_support.rs:100-115 | who can own a key at that point: an earlier seat, or an account that the loop has not reached |
| KeyRegistration.PassedKeysStay | toolkit/committee-selection/pallet/src/pallet_session_support.rs:51-70 | later seats do not change the keys of an account that the loop has passed |
| KeyRegistration.SeatKeysRegisteredIffFree | toolkit/committee-selection/pallet/src/pallet_session_support.rs:51-70 | after the loop all accounts hold the keys of their first seats if and only if the keys of all first seats were free before it |
| KeyRegistration.BlockedSeatHasNoKeys | toolkit/committee-selection/pallet/src/pallet_session_support.rs:51-70 | if the keys of some seat were not free, some account of the committee is left without any keys |
| KeyRegistration.RotationRegistersKeys | toolkit/committee-selection/pallet/src/pallet_session_support.rs:48-77 | the same if-and-only-if for the whole rotation, and for every seat having any keys at all; departed accounts hold no keys and outsiders keep theirs |
| KeyRegistration.UnclaimedKeysAreFree | toolkit/committee-selection/pallet/src/pallet_session_support.rs:100-115 | keys that no other account holds or asks for are free |
| KeyRegistration.SwappedKeysLoseOne | toolkit/committee-selection/pallet/src/pallet_session_support.rs:51-70 | counterexample family: two sitting members that swap keys leave the first one without any |
| RotationRuns.GenesisIsSound | toolkit/committee-selection/pallet/src/lib.rs:411-428 | the invariant holds at genesis |
| RotationRuns.BeginBlockPanics | toolkit/committee-selection/pallet/src/pallet_session_support.rs:34-46 | block initialisation panics if and only if a rotation retires a blocked account; the `expect` and the bounded conversion never fail |
| RotationRuns.ForeignConsumerBlocksRotation | toolkit/committee-selection/pallet/src/pallet_session_support.rs:137-144 | a run from genesis that ends in this panic |
| RotationRuns.BeginBlockEffect | toolkit/committee-selection/pallet/src/pallet_session_support.rs:151-176 | what each block initialisation does to committee, stage and session sets, case by case |
| RotationRuns.StepKeepsSound | toolkit/committee-selection/pallet/src/lib.rs:433-558 | every block and every action of other pallets keeps the invariant; blocks change no foreign reference |
| RotationRuns.RunIsSound | toolkit/committee-selection/pallet/src/lib.rs:433-558 | every state of every run from a sound state is sound |
| RotationRuns.RotationIsSafe | toolkit/committee-selection/pallet/src/lib.rs:658-670 | in every reachable state: provided accounts are those of the committee, no two accounts hold the same raw key of a type, the next committee is for the next epoch, the committee is never ahead of the chain, the intermediate stage is invisible and the session sets follow the stage |
| RotationRuns.ProviderCountedOnce | toolkit/committee-selection/pallet/src/pallet_session_support.rs:129-144 | over any run of blocks this pallet accounts for exactly one provider per seated account and one consumer per key holder |
| RotationRuns.EpochAdvancesByOne | toolkit/committee-selection/pallet/src/lib.rs:658-670 | a rotation advances the committee epoch by one and nothing else changes it after block 1 |
| RotationRuns.NextCommitteeNeverMissingTwice | toolkit/committee-selection/pallet/src/lib.rs:517-523 | a next committee missing before a block exists after it |
| RotationRuns.StepStoresNext | toolkit/committee-selection/pallet/src/lib.rs:538-558 | a step stores at most one committee, for the epoch after the latest one |
| RotationRuns.CommitteesServeInOrder | toolkit/committee-selection/pallet/src/lib.rs:658-670 | over every run committees are stored for consecutive epochs, one each, and serve in the epoch they were stored for |
| InherentAgreement.ProposerAndVerifierAgree | toolkit/committee-selection/pallet/src/lib.rs:452-511 | for every parent state and all inherent data, the call created after rotation passes the check on the parent state, dispatches, and exists whenever it is required |
| InherentAgreement.HonestBlockStoresSelection | toolkit/committee-selection/pallet/src/lib.rs:452-473 | whenever an honest call is added, the block stores the selection for the epoch after the committee in office, or that committee once more if nothing can be selected; no call exactly when the next committee is known |
| InherentAgreement.AcceptedBlockStoresSelection | toolkit/committee-selection/pallet/src/lib.rs:475-511 | the same for every block the verifier accepts, whoever proposed it |
| InherentAgreement.RunStoresSelections | toolkit/committee-selection/pallet/src/lib.rs:452-558 | over every run each stored committee was selected, or repeats the one in office |
| InherentAgreement.SetFailsIff | toolkit/committee-selection/pallet/src/lib.rs:544-556 | a wrong epoch is reported first, a second committee for the right epoch next, nothing else fails |
| InherentAgreement.AcceptedCallIsUnique | toolkit/committee-selection/pallet/src/lib.rs:475-511 | two accepted calls lead to the same state |
| InherentAgreement.RejectionReportsInputs | toolkit/committee-selection/pallet/src/lib.rs:475-511 | a rejected committee differs from the selected one, or from the one to be kept; the error tells whether the inputs were the same and carries both hashes |
| InherentAgreement.InputsEpochIsCallEpoch | toolkit/committee-selection/pallet/src/lib.rs:584-588 | past genesis the epoch whose inputs are fetched is the epoch of the created call |
| InherentAgreement.GenesisInputsEpoch | toolkit/committee-selection/pallet/src/lib.rs:584-588 | in block 1 the fetched epoch is 1 although the call is for the epoch after the chain epoch |
| InherentAgreement.HonestBlockIsAccepted | toolkit/committee-selection/pallet/src/lib.rs:452-558 | an honest block on a sound state is accepted, keeps the invariant and leaves a next committee |
| CatchUp.CatchesUp | toolkit/committee-selection/pallet/src/tests.rs:267-349 | for any number of honest blocks in a fixed epoch: the gap closes by one per block, one additional session follows, then none |
| CatchUp.CaughtUpValidators | toolkit/committee-selection/pallet/src/tests.rs:267-349 | afterwards the active validators are the seats of the committee of the chain epoch that have keys |
| SeatedCommittee.QueueOfSeats | toolkit/committee-selection/pallet/src/pallet_session_support.rs:267-295 | the queue keeps seats in order, carries the registered keys and drops exactly the accounts without keys; it is the whole list if and only if every account has keys |
| SeatedCommittee.GenesisCommittee | toolkit/committee-selection/pallet/src/lib.rs:411-428 | the genesis committee is the longest prefix of the authorities within the bound; both session sets come from it; its accounts get one provider each and nothing else changes |
| SeatedCommittee.CommitteeTakesOffice | toolkit/committee-selection/pallet/src/pallet_session_support.rs:267-295 | two blocks after the epoch change the stored committee is in office; the active validators are all its seats, in order, if and only if the keys of every seat were free when it rotated in |
| SelectionEpochs.MainchainEpochContainsTimestamp | toolkit/sidechain/domain/src/mainchain_epoch.rs:125-142 | every timestamp is before the first epoch, an error, or in exactly one epoch; the derived epoch is that one, saturated at 32 bits, or the error for too many epochs |
| SelectionEpochs.ProposerAndVerifierReadSameEpoch | toolkit/committee-selection/authority-selection-inherents/src/ariadne_inherent_data_provider.rs:128-147 | wall time and slot start give the same inputs epoch on every parent state when slots divide epochs |
| SelectionEpochs.GenesisEpochsAgreeIffAligned | demo/node/src/inherent_data.rs:267-280 | in block 1 both sides read the same main chain epoch, for every main chain and wall time, if and only if slots divide epochs |
| SelectionEpochs.UnalignedEpochsDiffer | demo/node/src/inherent_data.rs:267-280 | otherwise a main chain and a wall time at which the proposer reads epoch 1 and the verifier epoch 0 |
| SelectionEpochs.InputsAreForCallEpoch | toolkit/committee-selection/authority-selection-inherents/src/ariadne_inherent_data_provider.rs:128-147 | inputs are read for the start of the epoch of the created call; the genesis case reads the running epoch |
| SelectionEpochs.InputsMcEpochIs | toolkit/committee-selection/authority-selection-inherents/src/ariadne_inherent_data_provider.rs:128-151 | the main chain epoch that is read is the one that contains the start of the epoch of the created call, or of the running epoch at genesis, saturated; exact errors |
| SelectionEpochs.SlotStartKeepsEpoch | demo/node/src/inherent_data.rs:267-280 | rounding to a slot start crosses no epoch boundary when slots divide epochs |
| SelectionEpochs.SlotStartCrossesEpoch | demo/node/src/inherent_data.rs:267-280 | otherwise the slot of the first boundary crosses it |
| ProductionLog.PrefixLengthIs | toolkit/block-production-log/pallet/src/lib.rs:179-200 | in a sorted log any split into early and late entries is the prefix |
| ProductionLog.Log.OnInitialize | toolkit/block-production-log/pallet/src/lib.rs:156-174 | appends the entry of the block exactly when author and moment are known |
| ProductionLog.Log.PartitionPoint | toolkit/block-production-log/pallet/src/lib.rs:179-185 | the binary search finds the end of the prefix of a sorted log and stays in range on any log |
| ProductionLog.Log.TakePrefix | toolkit/block-production-log/pallet/src/lib.rs:179-185 | splits the log without loss; on a sorted log what is taken is the prefix |
| ProductionLog.Log.PeekPrefix | toolkit/block-production-log/pallet/src/lib.rs:188-192 | the linear read returns the prefix and changes nothing |
| ProductionLog.Log.DropPrefix | toolkit/block-production-log/pallet/src/lib.rs:195-200 | removes a front part; on a sorted log exactly the prefix |
| LogAccounting.ParticipationPallet.NoteProcessing | toolkit/block-participation/pallet/src/lib.rs:164-171 | rejects a moment that does not increase and changes nothing; otherwise discards the prefix and records the moment |
| LogAccounting.ParticipationPallet.RunBlock | toolkit/block-production-log/pallet/src/lib.rs:156-220 | read of the parent log, append and clean-up refine the specified block step; on an unsorted log a front part is removed |
| LogAccounting.LostIsOwnEntry | toolkit/block-production-log/pallet/src/lib.rs:195-220 | what a clean-up removes unreleased is nothing, or exactly the own entry of the block |
| LogAccounting.NoReleaseOnlyAppends | toolkit/block-participation/primitives/src/lib.rs:315-320 | a block outside the release schedule only appends its own entry |
| LogAccounting.RunIsAccounted | toolkit/block-production-log/pallet/src/lib.rs:208-220 | over every run the appended history is the released batches, each followed by what was lost with it, and the remaining log, in order |
| LogAccounting.RunKeepsLogSorted | toolkit/block-production-log/pallet/src/lib.rs:179-200 | with non-decreasing moments the log stays sorted, so search and linear read see the same prefix |
| LogAccounting.ExactlyOnceIffNothingLost | toolkit/block-production-log/pallet/src/lib.rs:208-220 | release is exactly-once if and only if no clean-up removed an unreleased entry |
| LogAccounting.LostEntriesOfRun | toolkit/block-production-log/pallet/src/lib.rs:156-174 | the entries never released are exactly the own entries of the releasing blocks |
| LogAccounting.ExactlyOnceIffNoAuthoredRelease | toolkit/block-participation/primitives/src/lib.rs:295-330 | hence exactly-once holds if and only if no releasing block appends an entry of its own |
| LogAccounting.HistoryIsSorted | toolkit/block-production-log/pallet/src/lib.rs:156-174 | along blocks with non-decreasing moments the history is sorted |
| LogAccounting.EveryBlockFindsSortedLog | toolkit/block-production-log/pallet/src/lib.rs:156-200 | so every block of such a run finds a sorted log |
| LogAccounting.StrictRunNeverFails | toolkit/block-participation/pallet/src/lib.rs:164-171 | with strictly increasing positive moments no block fails in note_processing |
| LogAccounting.OwnEntryIsLost | toolkit/block-participation/pallet/src/lib.rs:164-171 | a concrete run of two blocks in which an entry is lost |
| BlockCounting.DataEpochIsTwoBack | toolkit/block-participation/primitives/src/lib.rs:402-412 | for every moment: a block counts for the epoch two before the one that contains it, fails below epoch 2, and panics outside the derivable epochs |
| BlockCounting.CountBlocks | toolkit/block-participation/primitives/src/lib.rs:414-441 | the counting loop computes the specified counters or the first error |
| BlockCounting.CountSucceedsIff | toolkit/block-participation/primitives/src/lib.rs:414-441 | counting succeeds if and only if every block has a data epoch |
| BlockCounting.CounterIsOccurrences | toolkit/block-participation/primitives/src/lib.rs:426-440 | each counter is the number of matching blocks, and only matching pairs have one |
| BlockCounting.CountersAddUp | toolkit/block-participation/primitives/src/lib.rs:426-440 | the counters add up to the number of blocks |
| BlockCounting.CountersFitU32 | toolkit/block-participation/primitives/src/lib.rs:426-440 | no counter overflows below 2^32 blocks |
| BlockCounting.CountIgnoresOrder | toolkit/block-participation/primitives/src/lib.rs:414-441 | any listing of the same blocks gives the same result |
| ParticipationData.NewProductionData | toolkit/block-participation/primitives/src/lib.rs:128-142 | the in-place inner and outer sorts compute the canonical form |
| ParticipationData.SummariseEpoch | toolkit/block-participation/primitives/src/lib.rs:331-345 | the inner loop computes the summaries of one epoch or the first missing one |
| ParticipationData.SummariseEpochs | toolkit/block-participation/primitives/src/lib.rs:331-345 | the outer loop computes all summaries or the first error |
| ParticipationData.ProductionData | toolkit/block-participation/primitives/src/lib.rs:295-353 | the whole provider computes the specified inherent data |
| ParticipationData.ParticipationOrderIsTotal | toolkit/block-participation/primitives/src/lib.rs:128-142 | the derived lexicographic order of summaries is total, given total orders of the identifiers |
| ParticipationData.BreakdownIsCanonical | toolkit/block-participation/primitives/src/lib.rs:355-388 | a summary succeeds if and only if its pool is known, and after sorting does not depend on the iteration order |
| ParticipationData.PairsVisitedOnce | toolkit/block-participation/primitives/src/lib.rs:331-345 | each counted pair of epoch and producer is visited exactly once, no other pair is |
| ParticipationData.DataAvailableIff | toolkit/block-participation/primitives/src/lib.rs:331-345 | success does not depend on the iteration order: it needs the delegations of every counted pool |
| ParticipationData.DataIsSortedSummaries | toolkit/block-participation/primitives/src/lib.rs:331-353 | the data is the sorted list of one canonical summary per counted pair |
| ParticipationContents.DataReportsCountedPairs | toolkit/block-participation/primitives/src/lib.rs:331-388 | one entry per counted pair and no other; it reports the blocks of the producer, the total stake of its pool and one delegator per delegating key with its share, adding up to the shares of the pool and listed in order |
| ParticipationContents.CompleteSourceSuffices | toolkit/block-participation/primitives/src/lib.rs:390-400 | every pool that is needed is asked for: a source that answers what it is asked always suffices |
| ParticipationContents.DataErrorIsReal | toolkit/block-participation/primitives/src/lib.rs:331-388 | a reported error names a counted epoch for which the source failed, or a counted producer whose pool it lacks |
| ParticipationData.DataIsCanonical | toolkit/block-participation/primitives/src/lib.rs:331-377 | two nodes with any iteration orders fail together or produce the same sequence |
| ParticipationData.DataIsOrdered | toolkit/block-participation/primitives/src/lib.rs:128-142 | data is listed by producer, then block count, then shares, then delegators lexicographically |
| ParticipationData.NodesAgreeOnParticipation | toolkit/block-participation/primitives/src/lib.rs:295-441 | for the whole computation, with blocks listed in any order: the same data, or a failure of the same part on both sides |
| BridgeSource.KeysAreTotal | toolkit/data-sources/db-sync/src/db_model.rs:869-870 | positions on the chain are totally ordered, by block first |
| BridgeSource.SelectIsSlice | toolkit/data-sources/db-sync/src/db_model.rs:917-996 | the query returns the slice of the chain between two positions |
| BridgeSource.CheckpointPosition | toolkit/data-sources/db-sync/src/bridge/mod.rs:131-137 | the new checkpoint resolves and stands right behind the returned outputs, or at the observed block |
| BridgeSource.ObservationConservesIff | toolkit/data-sources/db-sync/src/bridge/mod.rs:101-141 | an observation hands over exactly the outputs it moves past if and only if the observed block is not before the checkpoint and the limit is positive or nothing is pending |
| BridgeSource.TransfersBounded | toolkit/data-sources/db-sync/src/bridge/mod.rs:139-180 | never more transfers than outputs |
| BridgePallet.Pallet.constructor | toolkit/bridge/pallet/src/lib.rs:283-289 | genesis storage: configured scripts and initial checkpoint |
| BridgePallet.Pallet.HandleTransfers | toolkit/bridge/pallet/src/lib.rs:296-307 | the loop passes every transfer to the handler in order and stores the checkpoint |
| BridgePallet.Pallet.SetMainChainScripts | toolkit/bridge/pallet/src/lib.rs:316-325 | governance resets scripts and checkpoint, nothing else |
| BridgePallet.CreatedInherentIsAccepted | toolkit/bridge/pallet/src/lib.rs:334-352 | the bound conversion never fails, a call passes the check if and only if it is the created one, and is unexpected if and only if there is no data |
| BridgePallet.BlockDelivers | toolkit/bridge/primitives/src/lib.rs:421-436 | for any limit and observed block: one block hands over the next outputs, at most the limit, and moves the checkpoint to the next position |
| BridgePallet.UnconfiguredIsIdle | toolkit/bridge/primitives/src/lib.rs:411-437 | while scripts or checkpoint are missing no run changes anything |
| BridgePallet.BlockFailsIff | toolkit/bridge/primitives/src/lib.rs:411-437 | a block cannot be built if and only if the configured checkpoint output is unknown to the chain |
| BridgePallet.RunHandsOver | toolkit/bridge/primitives/src/lib.rs:279-310 | every run can be executed, for any limit and observed blocks; what is handled and where the checkpoint ends |
| BridgePallet.ExactlyOnceIff | toolkit/bridge/primitives/src/lib.rs:279-310 | over every run without a reset the outputs handed over are those between the initial and the current checkpoint, in order, no skip, no repeat, if and only if no block observes less than the checkpoint has passed (with a zero limit: if and only if the run ends where it began) |
| BridgePallet.DeliversExactlyOnce | toolkit/bridge/primitives/src/lib.rs:279-310 | in particular with a positive limit and a main chain that is never observed backwards |
| BridgePallet.ObservingBackRepeats | toolkit/data-sources/db-sync/src/bridge/mod.rs:131-137 | observing a block behind the checkpoint delivers nothing and moves back, and the next block delivers again what was delivered before |
| BridgePallet.BacklogDrains | toolkit/bridge/primitives/src/lib.rs:279-310 | while the observed block stands still every block delivers a full batch until nothing is left |
| BridgePallet.ZeroLimitSkips | toolkit/data-sources/db-sync/src/bridge/mod.rs:131-137 | a zero limit moves the checkpoint past pending outputs without delivering them |
| BridgeRecipients.TransfersReachOwners | toolkit/data-sources/db-sync/src/bridge/mod.rs:146-180 | told from tokens and datums alone: each recipient gets, in order, what the outputs naming it add; the reserve what reserve outputs add; every other output that adds tokens gives one invalid transfer with its id |
| BridgeRecipients.DeliveredReachesOwners | toolkit/bridge/pallet/src/lib.rs:296-307 | between two checkpoints the handler received exactly this |
| BridgeRecipients.RunPaysRecipients | toolkit/bridge/pallet/src/lib.rs:296-307 | over every run that conserves outputs, the amounts to each recipient and to the reserve add up to what was sent to them |
| BridgeTokens.DeltasAreNetInflowIff | toolkit/data-sources/db-sync/src/bridge/mod.rs:1-12 | the amounts of a transaction add up to its net inflow if and only if it follows the documented contract rule or has no net inflow |
| BridgeTokens.AmountsAreDeltasIff | toolkit/data-sources/db-sync/src/bridge/mod.rs:146-180 | amounts equal the token deltas, whatever the datums say, if and only if every delta fits 64 bits |
| BridgeTokens.DeltasAreGrowth | toolkit/data-sources/db-sync/src/bridge/mod.rs:1-12 | over any sequence of rule-abiding deposits the deltas add up to the growth of the address |
| BridgeTokens.ReleasedIsGrowthIff | toolkit/data-sources/db-sync/src/bridge/mod.rs:146-158 | what the handler received between two checkpoints equals the growth of the address between them if and only if every delta fits 64 bits |
| BridgeTokens.RunReleasesGrowth | toolkit/bridge/pallet/src/lib.rs:296-307 | over every run that conserves outputs, tokens released equal tokens locked if and only if every delta fits 64 bits |
| BridgeTokens.SplitOutputsCarryLess | toolkit/data-sources/db-sync/src/bridge/mod.rs:6-12 | a transaction outside the rule whose transfers carry less than it locked |
| BridgeCache.SkipTakeIsSelect | toolkit/data-sources/db-sync/src/bridge/cache.rs:92-100 | skipping and taking on a sorted list equals filtering it |
| BridgeCache.CachedRangeSuffices | toolkit/data-sources/db-sync/src/bridge/cache.rs:68-90 | a coherent cache that covers a request holds everything the query would find |
| BridgeCache.ServeIsQueryIff | toolkit/data-sources/db-sync/src/bridge/cache.rs:68-101 | a served answer equals the direct query if and only if the limit is zero or no output of block 0 is pending |
| BridgeCache.ServeIs | toolkit/data-sources/db-sync/src/bridge/cache.rs:68-101 | a hit is always the direct query over the outputs after block 0 |
| BridgeCache.CacheLacksBlockZero | toolkit/data-sources/db-sync/src/bridge/cache.rs:200-204 | outputs of block 0 are never cached |
| BridgeCache.FillIsCoherent | toolkit/data-sources/db-sync/src/bridge/cache.rs:194-225 | a filled cache is coherent and covers the start of the request |
| BridgeCache.SetScriptsIsCoherent | toolkit/data-sources/db-sync/src/bridge/cache.rs:47-54 | changing scripts keeps the cache coherent |
| BridgeCache.CachedSource.SetMcScripts | toolkit/data-sources/db-sync/src/bridge/cache.rs:47-54 | clears the cache exactly when the scripts change |
| BridgeCache.CachedSource.FillCache | toolkit/data-sources/db-sync/src/bridge/cache.rs:194-225 | loads the specified range |
| BridgeCache.CachedSource.ResolveCheckpoint | toolkit/data-sources/db-sync/src/bridge/cache.rs:263-278 | resolving through the cache gives the position on the main chain |
| BridgeCache.CachedSource.GetTransfersCached | toolkit/data-sources/db-sync/src/bridge/cache.rs:120-157 | whatever earlier requests left behind, the answer is that of the direct source on a chain without block 0; it fails if and only if the checkpoint is unknown, or the cache misses and the stable tip is below the requested block |
| BridgeCache.InterleavedStepsKeepSummary | toolkit/data-sources/db-sync/src/bridge/cache.rs:136-145 | under any interleaving of locked steps of any requests the cache holds what the chain holds for the scripts and range of the last fill |
| BridgeCache.InterleavedHitIsDirectIff | toolkit/data-sources/db-sync/src/bridge/cache.rs:136-145 | under any interleaving a hit is the answer for the scripts of the last fill; it is the direct answer of the request if and only if those are its own scripts and no output of block 0 is pending, or neither address has anything to report |
| BridgeCache.InterleavedServeMissesIff | toolkit/data-sources/db-sync/src/bridge/cache.rs:136-145 | under any interleaving a request misses if and only if the range of the last fill ends too early or starts too late |
| BridgeCache.UndisturbedRequestMissesIff | toolkit/data-sources/db-sync/src/bridge/cache.rs:136-145 | after its own fill, with no other fill or change of scripts in between, a request is refused if and only if the stable tip is below the requested block |
| BridgeCache.LookaheadIsServed | toolkit/data-sources/db-sync/src/bridge/cache.rs:194-225 | after a fill every request that resumes no earlier hits, up to the lookahead or the stable tip |
| BridgeCache.OverlappingFillRefuses | toolkit/data-sources/db-sync/src/bridge/cache.rs:136-145 | a request for the same scripts and a later range that fills the cache in between makes an earlier request fail |
| BridgeCache.MixedRequestsServeWrongOutputs | toolkit/data-sources/db-sync/src/bridge/cache.rs:130-145 | an interleaving of requests for different scripts that serves outputs of the wrong address |
| JsonConfig.Extract | toolkit/partner-chains-cli/src/config.rs:169-182 | the reading loop follows the path |
| JsonConfig.SaveToFile | toolkit/partner-chains-cli/src/config.rs:134-154 | the loop that moves a cursor down the tree, creating objects as it goes and assigning through it at the end, has the effect of one nested write, and the value is read back |
| JsonConfig.SaveIfEmpty | toolkit/partner-chains-cli/src/config.rs:156-166 | keeps a loadable field, otherwise writes; the file then loads to the returned value if and only if it did before or the value survives its own encoding; exact panic condition |
| JsonConfig.ReplaceIsPut | toolkit/partner-chains-cli/src/config.rs:149 | assigning through a cursor that points at an existing value is the nested write |
| JsonConfig.CursorStep | toolkit/partner-chains-cli/src/config.rs:141-148 | one iteration moves the cursor to an object below it, panics as the whole write would, and keeps the outcome of the whole write |
| JsonConfig.PrepareKeeps | toolkit/partner-chains-cli/src/config.rs:139-149 | turning what lies on the way into objects first does not change the result of a write |
| JsonConfig.ReadAfterWrite | toolkit/partner-chains-cli/src/config.rs:134-182 | a written value is read back |
| JsonConfig.WriteFailsIff | toolkit/partner-chains-cli/src/config.rs:134-154 | a write fails if and only if the path is non-empty and the root is neither object nor null |
| JsonConfig.LastWriteWins | toolkit/partner-chains-cli/src/config.rs:134-154 | a second write leaves no trace of the first |
| JsonConfig.WritesAreLocal | toolkit/partner-chains-cli/src/config.rs:134-182 | a write does not affect reads at paths of which neither is a prefix of the other |
| JsonConfig.WritesCommute | toolkit/partner-chains-cli/src/config.rs:134-154 | writes to such paths commute, also through non-objects |
| JsonConfig.AllWritesReadable | toolkit/partner-chains-cli/src/config.rs:298-307 | a group of such writes is readable back as a whole |
| JsonConfig.CardanoParametersRoundTrip | toolkit/partner-chains-cli/src/config.rs:282-307 | all seven parameters are saved under their names, and read back if and only if the coefficient is finite |
| CandidateKeys.MaybeFromCandidateKeys | toolkit/committee-selection/authority-selection-inherents/src/lib.rs:78-87 | the appending loop gathers and decodes as specified |
| CandidateKeys.AssembledIffSized | toolkit/committee-selection/authority-selection-inherents/src/lib.rs:78-87 | the assembled keys are the listed ones if and only if every key has its size and all fit the bound |
| CandidateKeys.AssembledIs | toolkit/committee-selection/authority-selection-inherents/src/lib.rs:78-87 | for any listed keys: success if and only if together they fit the bound and are long enough, and then their concatenation is cut into fields of the required sizes |
| CandidateKeys.FindIsFirst | toolkit/committee-selection/authority-selection-inherents/src/lib.rs:83 | the first key with an id is used |
| CandidateKeys.MissingKeyFails | toolkit/committee-selection/authority-selection-inherents/src/lib.rs:78-87 | a missing required key is fatal |
| CandidateKeys.WrongSizesAreCutElsewhere | toolkit/committee-selection/authority-selection-inherents/src/lib.rs:78-87 | keys of wrong sizes that add up are accepted and cut elsewhere |
| CandidateKeys.OrderAndExtraKeysDoNotMatter | toolkit/committee-selection/authority-selection-inherents/src/lib.rs:78-87 | order and extra keys do not matter when ids are distinct |
| CandidateKeys.CandidateKeysFromStrings | toolkit/partner-chains-cli/src/permissioned_candidates.rs:68-83 | the pushing loop converts every key or reports the first malformed id |
| CandidateKeys.KeyListError | toolkit/partner-chains-cli/src/permissioned_candidates.rs:68-83 | the first malformed key type id is reported |
| CandidateKeys.TextFormIff | toolkit/partner-chains-cli/src/permissioned_candidates.rs:49-66 | candidate data has a text form if and only if all ids are text; the partner chain key is kept |
| CandidateKeys.ParseFailsAs | toolkit/partner-chains-cli/src/permissioned_candidates.rs:101-115 | partner chain key, ids and keys are checked in this order; a success keeps the partner chain key |
| CandidateKeys.RoundTripIffBounded | toolkit/partner-chains-cli/src/permissioned_candidates.rs:49-133 | parsed keys survive the round trip through candidate data and the string-keyed map if and only if their encoding fits 1024 bytes |
| RegistrationFilter.AcceptedIffAllChecksPass | toolkit/committee-selection/authority-selection-inherents/src/filter_invalid_candidates.rs:254-284 | a registration is accepted if and only if all checks hold |
| RegistrationFilter.IncludedIffApiAccepts | demo/runtime/src/lib.rs:1099-1109 | a pool yields a candidate if and only if the validation API accepts its stake, which is known and positive, and some registration |
| RegistrationFilter.ChosenIsLatest | toolkit/committee-selection/authority-selection-inherents/src/filter_invalid_candidates.rs:144-176 | the candidate carries the partner chain key and the assembled session keys of a latest accepted registration, and the positive stake of the pool |
| RegistrationFilter.SelectionIgnoresOrder | toolkit/committee-selection/authority-selection-inherents/src/filter_invalid_candidates.rs:144-176 | the listing order of registrations does not matter when keys are distinct |
| RegistrationFilter.EntriesCarryRegistrations | toolkit/committee-selection/authority-selection-inherents/src/filter_invalid_candidates.rs:105-176 | so does every entry of the output, for one of the listed pools |
| RegistrationFilter.FirstFailingCheckIsReported | toolkit/committee-selection/authority-selection-inherents/src/filter_invalid_candidates.rs:254-284 | the error of a registration is that of its first failing check |
| RegistrationFilter.OrderingKeysAreTotal | toolkit/committee-selection/authority-selection-inherents/src/filter_invalid_candidates.rs:144-176 | ordering keys are totally ordered, by block first |
| RegistrationFilter.FilterKeepsOrder | toolkit/committee-selection/authority-selection-inherents/src/filter_invalid_candidates.rs:105-125 | the output lists the included pools in input order with positive weights |
| RegistrationFilter.IncludedPoolsAreListed | toolkit/committee-selection/authority-selection-inherents/src/filter_invalid_candidates.rs:105-125 | a pool is in the output if and only if one of its entries yields a candidate |
| RegistrationFilter.OneCandidatePerPool | toolkit/committee-selection/authority-selection-inherents/src/filter_invalid_candidates.rs:105-125 | at most one candidate per pool |
| MetadataDeposits.Pallet.HoldDeposit | toolkit/block-producer-metadata/pallet/src/lib.rs:328-332 | a hold succeeds exactly when the funds suffice and changes nothing otherwise |
| MetadataDeposits.Pallet.ReleaseDeposit | toolkit/block-producer-metadata/pallet/src/lib.rs:334-344 | a best-effort release |
| MetadataDeposits.Pallet.UpsertMetadata | toolkit/block-producer-metadata/pallet/src/lib.rs:234-278 | insert with deposit, or update in place by the owner; errors change nothing |
| MetadataDeposits.Pallet.DeleteMetadata | toolkit/block-producer-metadata/pallet/src/lib.rs:292-324 | removal with release, by the owner; errors change nothing |
| MetadataDeposits.ReleaseIsFull | toolkit/block-producer-metadata/pallet/src/lib.rs:334-344 | a best-effort release of a stored deposit releases all of it |
| MetadataDeposits.DispatchKeepsBacked | toolkit/block-producer-metadata/pallet/src/lib.rs:234-324 | every call keeps the hold of each account equal to the deposits of its entries |
| MetadataDeposits.DispatchConservesFunds | toolkit/block-producer-metadata/pallet/src/lib.rs:260-324 | free plus held stays constant, and only the deposit of a created or removed entry moves |
| MetadataDeposits.OwnerOnlyChangesByReinsertion | toolkit/block-producer-metadata/pallet/src/lib.rs:260-275 | an entry that stays keeps owner and deposit; only its owner can change it |
| MetadataDeposits.AcceptedIff | toolkit/block-producer-metadata/pallet/src/lib.rs:259-275 | a call is accepted if and only if it is in time, signed, made by the owner if there is one and paid for if it creates an entry; precedence of errors |
| MetadataDeposits.AcceptedCallStores | toolkit/block-producer-metadata/pallet/src/lib.rs:260-324 | a created entry belongs to the caller and carries the configured deposit, then on hold; an update changes the metadata only; a deletion frees the deposit |
| MetadataDeposits.LastAcceptedIsStored | toolkit/block-producer-metadata/pallet/src/lib.rs:234-324 | over every run a key stores what its last accepted call asked for |
| MetadataDeposits.RunConservesFunds | toolkit/block-producer-metadata/pallet/src/lib.rs:234-344 | over every run free plus held changes only by what the rest of the runtime changes, so a run of calls keeps it constant |
| MetadataDeposits.DepositsStayBacked | toolkit/block-producer-metadata/pallet/src/lib.rs:234-344 | over every run the hold of each account equals the deposits of its entries, and any deposit would be released in full |
| MetadataDeposits.DeleteUndoesInsert | toolkit/block-producer-metadata/pallet/src/lib.rs:234-324 | deleting a fresh entry restores every balance |
| BlockSearch.FindAnyBlockInEpoch | toolkit/committee-selection/query/src/block_search.rs:59-79 | finds a block of the epoch if and only if there is one; overflows exactly when the specified additions do |
| BlockSearch.NoOverflowIffBelowHalf | toolkit/committee-selection/query/src/block_search.rs:59-79 | no search overflows if and only if the best block is below 2^31 |
| BlockSearch.WalksToBestBlock | toolkit/committee-selection/query/src/block_search.rs:59-79 | on a higher chain the search for a later epoch overflows |

## Left out

- `pallet_session`, `frame_system` and `pallet_balances` are not part of the repository: only the operations
  used here are modelled (queue shift, key registration and purge, provider and consumer counts, hold and
  release). The key owner index is represented as the inverse of the registered keys, sufficient references are
  ignored and the session key deposit is zero.
- Ariadne seat assignment is an abstract deterministic function; signatures, hashes, CBOR and SCALE are abstract
  predicates and functions, except for the concatenation of fixed-size session keys.
- Epoch numbers, timestamps and block numbers of 64 bits are unbounded; 32-bit limits are modelled where the code
  checks or saturates them.
- MetadataDeposits.Pallet.UpsertMetadata: whether the signature verifies, the time, the deposit amount and how much of a
  free balance may be held are inputs of the call; metadata is an abstract value.
- BridgePallet.DeliversExactlyOnce: only for a positive limit and a main chain that is never observed backwards; all
  other runs are covered by `ExactlyOnceIff`.
- BridgeCache.InterleavedHitIsDirectIff: when the last fill was for other scripts, the if-and-only-if is for script
  configurations without a common output; in general only what is served is stated.
- The SQL query of the bridge is an ordered filter over an immutable stable main chain; database errors are left out.
- The mutable cursor into the JSON tree is a path into a value, so aliasing inside the tree is not captured; the text
  layer of the file, prompts and process I/O are left out.
- Library sorting is an insertion sort function; the orders of identifier types are assumed total.
- LogAccounting.ParticipationPallet.RunBlock: how much is removed from an unsorted log is not stated; no run with
  non-decreasing moments meets one (`EveryBlockFindsSortedLog`).
- The inherent creation and check of the participation pallet compare the data for equality and would add easy members.
- The main chain scripts extrinsic of the committee pallet, migrations, weights, RPC, Aura workers, fees, address
  associations, the governed map, chain specifications and node wiring.
