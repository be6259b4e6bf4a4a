# A verified model of dkg-substrate

A Dafny model of the stateful core of dkg-substrate, a distributed key generation
and signing protocol for a Substrate chain, with proofs about whole runs of it. Each
component has a specification of what its operations do to its state, laws over
every run of those operations, and, where the source works step by step, a class or
a method with loops that is proved against the specification.

| component | files |
|---|---|
| FROST message exchange: key generation and signing over one ordered broadcast | `FrostMessages`, `FrostSigning`, `FrostSigningRuns`, `FrostSigningLocal`, `FrostGroupSize`, `FrostKeygen`, `FrostKeygenRuns`, `Workload` |
| key rotation, thresholds, misbehaviour reports, authority selection, voter Merkle root | `MetadataSpec`, `Metadata`, `Rotation`, `Reports`, `Committees`, `Stalls`, `Announcements`, `Authorities`, `Merkle` |
| proposal batching pipeline | `ProposalSpec`, `ProposalHandler`, `ProposalRuns`, `ProposalLaws` |
| bridge registry | `BridgeRegistry` |
| signing work manager and signing-set retries | `WorkSpec`, `WorkManager`, `WorkRuns`, `WorkLaws`, `SigningRetry`, `RetryLaws`, `SigningSets` |
| gossip filter | `LruFilter`, `GossipSends` |
| orders and enumerations | `Orders` |

Cryptography (hashing, curve arithmetic, signature shares, aggregation, signature
recovery) is uninterpreted: functions passed as parameters, with injectivity stated
as a hypothesis where it is used. Iteration orders of hash maps, clock readings, the
outcome of a signature check and the status of an asynchronous protocol are
parameters too. A dispatchable call that fails leaves storage unchanged; the result
of the signed-proposal handlers is ignored by their caller, so what the bridge
registry writes before a failure stays.

## Where the code and its intent differ

Some properties one would expect are false of the code. For each the model keeps the
code as it is and proves the exact condition:

- FROST signing works in every interleaving exactly for groups of `threshold`
  members; in a larger group two members may sign over different sets
  (`GroupSizeIsExact`).
- Party key ids cover all `k` keys exactly when `n` divides `k`
  (`GeneratePartyKeyIds`).
- `set_signature_threshold` accepts values above the pending keygen threshold
  (`SetSignatureExact`, `SetSignatureBreaks`). After the next rotation no key can then
  be backed, and unless signing reports find the committee in office understaffed,
  nothing rotates until a rotation is forced (`SetSignatureStallsExactly`,
  `StallsExactly`, and `GenesisStalls` for a run).
- A proposal the handler loses is never made again while it is marked in progress: then
  nothing rotates until an emergency keygen or a forced rotation (`HaltsExactly`,
  `GenesisLoses`).
- The filter of a signing report leaves out nobody, so the jailed count as in office
  (`CountsAll`).
- Jailed authorities fill up the next best set when unjailed ones run short. A report
  then may leave the next or the pending pair improper and seats empty
  (`ReportThresholdsExact`, `ReportSeatsExact`, and `FillInsBreakPair` for a run).
- A forced rotation counts a nonce without announcing anything, which leaves a gap in
  the announced nonces unless no later key can be backed (`ForcedNumberingExact`,
  `ForcedGap`); they still never repeat (`RunRising`).
- A forced rotation leaves a proposal for the key in office behind, and an emergency
  keygen may leave one too. If the handler holds it and another key can be backed, it can
  be announced with that key (`ForcedCoverExact`, `EmergencyCoverExact`,
  `LeftBehindExact`, and `SecondCopyAnnounced` for a run).
- A reported authority outside the next best set is not jailed and can come back
  (`OutForGoodExact`).
- The bridge registry labels components exactly when a bridge may list at least two
  resources (`LabelsExactly`).
- The refresh purge collects ids over all chains but removes on one chain only
  (`PurgeExactly`, `OneRotationExactly`, `RefreshLeftQueued`); a batch with a refresh
  that is not its first proposal can expire (`ProtectedExactly`, `LaterRefreshExpires`).
- The weight limit of idle work does not bind while any proof size is left
  (`IdleDrainsExactly`, `IdleExpiresExactly`).
- Two waiting jobs with one task hash can leave a slot idle (`PollFillsExactly`).
- A failure reported after a proposal's history was removed, or a first block with too
  few authorities to generate a set, stops its retries until another success is
  reported, and nothing else does (`StoppedExactly`, `StuckExactly`, `LateFailureStops`,
  `TooFewStop`); a failure of an earlier round makes the retries skip sets
  (`OnScheduleExactly`).
- With many authorities all 256 signing sets contain the first one
  (`FirstAlwaysNeeded`).

## Model

| member | source | states |
|---|---|---|
| `FrostSigning.SortedInputCanonical` | dkg-gadget/src/dkg_modules/wt_frost.rs:356-367 | whatever order the hash maps yield, sorting the collected commitments gives the input listed by increasing party id |
| `FrostSigning.NoShareReadEarly` | dkg-gadget/src/dkg_modules/wt_frost.rs:339-354 | in an invariant state of a group of exactly threshold parties, a party still collecting nonces never has a signature share as its next message |
| `FrostSigning.StepKeeps` | dkg-gadget/src/dkg_modules/wt_frost.rs:311-410 | every start, read, publish or finish keeps the group invariant: honest log, shares only after all commitments, and each party holding exactly what its read prefix contains |
| `FrostSigningRuns.StuckOnlyWhenDone` | dkg-gadget/src/dkg_modules/wt_frost.rs:311-410 | no reachable state is stuck: nobody can move exactly when everybody has finished |
| `FrostSigningRuns.StepRank` | dkg-gadget/src/dkg_modules/wt_frost.rs:311-410 | every move of any party uses up exactly one unit of a bounded amount of work |
| `FrostSigningRuns.SigningCompletesAndAgrees` | dkg-gadget/src/dkg_modules/wt_frost.rs:311-410 | over every interleaving: runs are bounded, stop only when all are done, and every finished party passes the same sorted ids, key ids, nonces and shares to the aggregator |
| `FrostSigningRuns.NoShareLost` | dkg-gadget/src/dkg_modules/wt_frost.rs:339-354 | no run lets a party read a share in the nonce loop, where it would be dropped |
| `FrostSigningLocal.SortedKeys` | dkg-gadget/src/dkg_modules/wt_frost.rs:356-357 | sorting the keys of a hash map yields them in increasing order, independent of the iteration order |
| `FrostSigningLocal.RunSigning` | dkg-gadget/src/dkg_modules/wt_frost.rs:311-410 | the two waiting loops of one party compute the outcome that the recursive reference assigns to its inbox, and broadcast exactly the commitment and, once the nonces are in, the share |
| `FrostSigningLocal.RunPrediction` | dkg-gadget/src/dkg_modules/wt_frost.rs:311-410 | the outcome predicted from a party's state and the rest of the log does not change along any run |
| `FrostSigningLocal.GroupRunsTheCode` | dkg-gadget/src/dkg_modules/wt_frost.rs:311-410 | a party that finishes in a run of the group model has computed exactly what the imperative code computes from its messages, for any threshold and group size |
| `FrostGroupSize.ExactGroupSound` | dkg-gadget/src/dkg_modules/wt_frost.rs:311-410 | with exactly threshold parties no run makes two parties sign different inputs or stops early |
| `FrostGroupSize.TooFewUnsound` | dkg-gadget/src/dkg_modules/wt_frost.rs:339-354 | with fewer parties than the threshold some run stops with nobody done |
| `FrostGroupSize.TooManyDisagree` | dkg-gadget/src/dkg_modules/wt_frost.rs:339-370 | with more parties than the threshold there is a run in which two parties sign over different groups |
| `FrostGroupSize.GroupSizeIsExact` | dkg-gadget/src/dkg_modules/wt_frost.rs:311-410 | all runs of a group are sound if and only if it has exactly threshold members |
| `FrostKeygen.AwaitDeals` | dkg-gadget/src/dkg_modules/wt_frost.rs:258-282 | the waiting loop gathers the deals the reference gathers from the inbox, or none when the messages run out |
| `FrostKeygen.CollectShares` | dkg-gadget/src/dkg_modules/wt_frost.rs:290-298 | the share of every dealer for one key, none when some dealer made none, where the source panics |
| `FrostKeygen.SharesPerKey` | dkg-gadget/src/dkg_modules/wt_frost.rs:284-299 | the same for each own key id, none exactly when some share is missing |
| `FrostKeygen.RunDkg` | dkg-gadget/src/dkg_modules/wt_frost.rs:235-309 | on every inbox: the commitment vector by increasing party id and the shares per key of the gathered deals, a dead connection when messages run out, or a missing share |
| `FrostKeygen.StepKeeps` | dkg-gadget/src/dkg_modules/wt_frost.rs:235-309 | every step of the group keeps the key generation invariant |
| `FrostKeygen.StuckOnlyWhenDone` | dkg-gadget/src/dkg_modules/wt_frost.rs:235-309 | key generation stops only when every party is done |
| `FrostKeygenRuns.StepRank` | dkg-gadget/src/dkg_modules/wt_frost.rs:235-309 | every move of any party uses up exactly one unit of a bounded amount of work |
| `FrostKeygenRuns.GroupRunsTheCode` | dkg-gadget/src/dkg_modules/wt_frost.rs:235-309 | a party that finishes in a run of the group has exactly the output the imperative code computes from its messages |
| `FrostKeygenRuns.KeygenCompletesAndAgrees` | dkg-gadget/src/dkg_modules/wt_frost.rs:235-309 | every run is bounded, stops only when all are done, and all finished parties use the same commitment vector and each exactly the shares dealt to its keys |
| `FrostKeygen.GeneratePartyKeyIds` | dkg-gadget/src/dkg_modules/wt_frost.rs:416-444 | blocks of k/n consecutive ids, each equal to what the per-signer function gives, together the ids below n*(k/n); all k ids are handed out if and only if n divides k |
| `Authorities.SortFalling` | pallets/dkg-metadata/src/lib.rs:2241-2258 | sorting by reputation permutes the list into non-increasing reputation |
| `Authorities.SortStable` | pallets/dkg-metadata/src/lib.rs:2241-2258 | ties keep the order in which the authorities were listed |
| `Authorities.TopIdsSpec` | pallets/dkg-metadata/src/lib.rs:2241-2258 | the best by reputation: as many as asked for or available, distinct, and nobody left out is strictly better |
| `Authorities.CandidatesSpec` | pallets/dkg-metadata/src/lib.rs:2260-2279 | the candidates are all unjailed authorities, topped up by the most reputed jailed ones only when those are too few |
| `Authorities.BestIdsSpec` | pallets/dkg-metadata/src/lib.rs:2241-2279 | exactly min(count, n) distinct members in falling reputation; no jailed one while an unjailed one is left out; within a jail class nobody left out beats a chosen one |
| `Authorities.BestUnjailed` | pallets/dkg-metadata/src/lib.rs:2260-2279 | asking for no more than there are unjailed ones yields no jailed one |
| `Merkle.TreeHeight` | pallets/dkg-metadata/src/lib.rs:1677-1689 | the height search returns the least height that holds all voters (one for a single voter) despite the saturating power |
| `Merkle.PreProcess` | pallets/dkg-metadata/src/lib.rs:1645-1660 | the padding loop ends with the voter leaves padded to a power of two |
| `Merkle.NextLayer` | pallets/dkg-metadata/src/lib.rs:1662-1675 | the layer loop hashes neighbours pairwise and never indexes out of range on the layers of the tree |
| `Merkle.LayerKeepsRoot` | pallets/dkg-metadata/src/lib.rs:1662-1675 | going up one layer keeps the root of the perfect tree |
| `Merkle.VoterRoot` | pallets/dkg-metadata/src/lib.rs:1691-1702 | the layer-by-layer loop computes the recursively defined root of the perfect tree of minimal height |
| `Merkle.RootDeterminesLeaves` | pallets/dkg-metadata/src/lib.rs:1645-1702 | with an injective node hash the root determines the ordered voter leaves among sets of one size |
| `Merkle.RootDeterminesSize` | pallets/dkg-metadata/src/lib.rs:1645-1702 | among sets of one height it determines the size when the padding is no leaf |
| `MetadataSpec.TallyExact` | pallets/dkg-metadata/src/lib.rs:1704-1741 | per key the tally lists, without repetition, exactly the authorities that signed it |
| `MetadataSpec.BackedExactly` | pallets/dkg-metadata/src/lib.rs:983-1000 | a key is taken with given signers after some submission if and only if they are at least one, no fewer than the threshold, all different and all from the best set |
| `MetadataSpec.MostReputed` | pallets/dkg-metadata/src/lib.rs:1139-1158 | a member that no other member beats in reputation |
| `Metadata.ProcessSubmissions` | pallets/dkg-metadata/src/lib.rs:1704-1741 | the loop computes the tally, and refuses the whole submission when a signer is no authority |
| `Metadata.ValidReporters` | pallets/dkg-metadata/src/lib.rs:1743-1774 | the loop lists, without repetition, exactly the reporters that come with a good signature; none where a good signature has no reporter and the source panics |
| `Metadata.FindAccepted` | pallets/dkg-metadata/src/lib.rs:930-952 | the first key in byte order with at least the threshold of signers, none only if no key has it |
| `Metadata.Pallet.constructor` | pallets/dkg-metadata/src/lib.rs:809-831 | the storage genesis leaves |
| `Metadata.Pallet.SetSignatureThreshold` | pallets/dkg-metadata/src/lib.rs:846-863 | accepted between one and the number of next authorities, changing only the pending signature threshold |
| `Metadata.Pallet.SetKeygenThreshold` | pallets/dkg-metadata/src/lib.rs:877-901 | accepted from two up to the number of next authorities, dragging the pending signature threshold below it |
| `Metadata.Pallet.SubmitPublicKey` | pallets/dkg-metadata/src/lib.rs:917-962 | stores the first key in byte order with enough distinct signers among the best authorities and pays them; refused when a key exists, a signer is unknown or no key qualifies, and then nothing changes |
| `Metadata.Pallet.SubmitNextPublicKey` | pallets/dkg-metadata/src/lib.rs:976-1036 | the same for the next key, stored under the next set id, with the next best authorities |
| `Metadata.Pallet.DoRefresh` | pallets/dkg-metadata/src/lib.rs:1552-1599 | the refresh proposal for a key, stored as pending and handed to the proposal handler; nothing when the key does not decompress |
| `Metadata.Pallet.OnInitialize` | pallets/dkg-metadata/src/lib.rs:410-444 | resets the keygen flags and, when a next key waits without a signature, creates the refresh proposal for it |
| `Metadata.Pallet.OnSignedRefresh` | pallets/dkg-metadata/src/lib.rs:2480-2531 | accepts a signature only for the pending proposal, once and never a used one |
| `Metadata.Pallet.RequeueAuthorities` | pallets/dkg-metadata/src/lib.rs:1803-1872 | clamps the thresholds to the queued authorities and selects the next best set |
| `Metadata.Pallet.RotateToNextKey` | pallets/dkg-metadata/src/lib.rs:1873-1910 | installs the next key under its id and appends the rotation to the history |
| `Metadata.Pallet.AnnounceRotation` | pallets/dkg-metadata/src/lib.rs:1911-1937 | counts the rotation and emits the current refresh proposal |
| `Metadata.Pallet.Rotate` | pallets/dkg-metadata/src/lib.rs:1869-1936 | installs thresholds, sets and key of the next session and announces the rotation |
| `Metadata.Pallet.ChangeAuthorities` | pallets/dkg-metadata/src/lib.rs:1803-1937 | the whole authority change, with and without a rotation |
| `Metadata.Pallet.OnNewSession` | pallets/dkg-metadata/src/lib.rs:2317-2349 | a session change records the block and changes authorities unforced |
| `Metadata.Pallet.ForceChangeAuthorities` | pallets/dkg-metadata/src/lib.rs:1358-1396 | a forced rotation without a signature, undone as a whole when the new proposal cannot be built |
| `Metadata.Pallet.ProposeOwnKey` | pallets/dkg-metadata/src/lib.rs:1374-1392 | the refresh proposal a forced rotation makes for its own key, with the nonce just counted, handed to the proposal handler |
| `Metadata.Pallet.TriggerEmergencyKeygen` | pallets/dkg-metadata/src/lib.rs:1406-1418 | drops the next key and its signature and asks for a keygen |
| `Metadata.Pallet.DropThresholds` | pallets/dkg-metadata/src/lib.rs:1190-1216 | lowers the keygen thresholds by one when nobody can replace the jailed authority |
| `Metadata.Pallet.SubmitKeygenReport` | pallets/dkg-metadata/src/lib.rs:1059-1236 | jails or only penalises the offender, replaces it or lowers the thresholds, and reselects the next best set, or changes nothing; what counts is the number of different reporters with a good signature |
| `Metadata.Pallet.ProcessKeygenReport` | pallets/dkg-metadata/src/lib.rs:1086-1236 | the same for a given number of valid reporters |
| `Metadata.Pallet.SubmitSigningReport` | pallets/dkg-metadata/src/lib.rs:1059-1282 | jails and penalises the offender; lowers the next and pending signature thresholds when too few are in office, only penalises when none is; a refusal changes nothing |
| `Rotation.GenesisCore` | pallets/dkg-metadata/src/lib.rs:809-831 | the genesis storage satisfies the rotation invariant |
| `Rotation.RotateKeysGood` | pallets/dkg-metadata/src/lib.rs:1869-1899 | a rotation writes a fresh, strictly larger set id whose record starts from the key the previous record ended with |
| `Rotation.StepCore` | pallets/dkg-metadata/src/lib.rs:917-1418 | every operation keeps the rotation invariant and never changes or removes a history record |
| `Rotation.RunCore` | pallets/dkg-metadata/src/lib.rs:1803-1937 | over every mix of normal, forced and emergency steps: key ids agree with set ids, the key history is an append-only unbroken chain, the nonce counts rotations, and a stored signature comes with its key and proposal |
| `Rotation.GateIsExact` | pallets/dkg-metadata/src/lib.rs:2391-2401 | ending a session without the gate keeps the set ids right if and only if no next key waits for its signature |
| `Rotation.RotationAnnounces` | pallets/dkg-metadata/src/lib.rs:1911-1935 | at every unforced rotation the signed proposal exists and is announced with the new key |
| `Rotation.StepNonces` | pallets/dkg-metadata/src/lib.rs:1552-1599 | without forced rotations every step keeps pending and current proposals at the nonce after the last |
| `Rotation.RunNonces` | pallets/dkg-metadata/src/lib.rs:1552-1593 | without forced rotations the announced nonces are 1, 2, 3, ... without a gap |
| `Rotation.StepRising` | pallets/dkg-metadata/src/lib.rs:1552-1599 | every step, forced or not, keeps the announced nonces rising below every proposal under way |
| `Rotation.RunRising` | pallets/dkg-metadata/src/lib.rs:1903-1937 | over every mix of steps the announced nonces strictly rise and stay at most the refresh nonce, and a pending or current one is above them and at most one more |
| `Rotation.RunMatched` | pallets/dkg-metadata/src/lib.rs:1552-1599 | whatever was announced last, such runs announce only keys that match their proposal |
| `Rotation.RunCovers` | pallets/dkg-metadata/src/lib.rs:1552-1599 | in runs without forced rotations, with emergency keygens only while the handler holds no pending proposal and signed refreshes only of proposals it holds, every announced signature is for the key that became current, and the last one for the voters in office |
| `Rotation.GenesisRuns` | pallets/dkg-metadata/src/lib.rs:809-831 | the rotation invariant and rising nonces in every run from genesis |
| `Rotation.GenesisNonces` | pallets/dkg-metadata/src/lib.rs:809-831 | gap-free nonces in every unforced run from genesis |
| `Rotation.GenesisCovers` | pallets/dkg-metadata/src/lib.rs:809-831 | matching announcements in every covering run from genesis |
| `Reports.SelectAll` | pallets/dkg-metadata/src/lib.rs:2260-2279 | selecting from a list that is not too long selects all of it, whoever is jailed |
| `Reports.ReplacementBest` | pallets/dkg-metadata/src/lib.rs:1139-1158 | the replacement is a spare authority that no spare one with a recorded reputation beats |
| `Reports.ReportOutcome` | pallets/dkg-metadata/src/lib.rs:1059-1236 | from every filled next best set, jailed fill-ins included: a report is accepted exactly when two members are left; then the offender and every jailed member are out, and an unjailed offender is jailed and swapped for the most reputed reserve or, without one, the thresholds are lowered |
| `Reports.ReportThresholdsExact` | pallets/dkg-metadata/src/lib.rs:1190-1216 | from every filled set with proper pairs: the next pair stays proper if and only if the offender is no unjailed member, or a reserve exists, or the next signature threshold is below the number of unjailed members; the pending pair exactly under the stated further condition |
| `Reports.ReportSeatsExact` | pallets/dkg-metadata/src/lib.rs:1219-1235 | the next committee has exactly keygen-threshold members afterwards if and only if no jailed one filled it up or the threshold is lowered |
| `Reports.JailSafeStays` | pallets/dkg-metadata/src/lib.rs:1059-1236 | from a jail-free full committee with a proper pair (JailSafe) an accepted report leads to one, and the threshold falls by exactly one or not at all |
| `Reports.ReportsOutcome` | pallets/dkg-metadata/src/lib.rs:1059-1236 | any sequence of accepted reports excludes all jailed and caught authorities; from a JailSafe state it stays so and the threshold falls by exactly the number nobody could replace |
| `Reports.GetsIn` | pallets/dkg-metadata/src/lib.rs:1059-1236 | from a JailSafe state an unjailed authority outside the next best set gets into it after enough reports against others |
| `Reports.OutForGoodExact` | pallets/dkg-metadata/src/lib.rs:1059-1236 | from a JailSafe state a reported offender stays out whatever reports follow if and only if it was in the next best set when reported |
| `Reports.CountsAll` | pallets/dkg-metadata/src/lib.rs:1239-1246 | the filter of a signing report leaves out nobody |
| `Reports.SigningOutcome` | pallets/dkg-metadata/src/lib.rs:1238-1267 | an accepted signing report lowers the next and the pending signature threshold to one below the number in office if and only if fewer than the threshold, but some, are in office; otherwise no committee changes |
| `Reports.SigningThresholdsExact` | pallets/dkg-metadata/src/lib.rs:1247-1260 | it keeps the pairs proper if and only if the committee in office is not understaffed or no larger than the next and the pending keygen threshold |
| `Committees.StepFilled` | pallets/dkg-metadata/src/lib.rs:1803-1860 | every step keeps the next best set distinct, among the next authorities and no larger than the keygen threshold |
| `Committees.RunFilled` | pallets/dkg-metadata/src/lib.rs:1803-1860 | so does every run, without restriction |
| `Committees.StepThresholds` | pallets/dkg-metadata/src/lib.rs:846-901 | every step, reports included, keeps signature < keygen for the current, next and pending pair under the exact conditions on threshold calls and reports |
| `Committees.RunThresholds` | pallets/dkg-metadata/src/lib.rs:1819-1872 | so do whole runs, and the next committee fits the queued authorities |
| `Committees.StepSeated` | pallets/dkg-metadata/src/lib.rs:1803-1937 | every step, reports included, keeps the acting and the next committee seated under those conditions and that of ReportSeatsExact |
| `Committees.RunSeated` | pallets/dkg-metadata/src/lib.rs:1819-1882 | over whole such runs in which the queued validators take office, the acting and the next committee have exactly keygen-threshold distinct members, all authorities of their session, with signature < keygen |
| `Committees.GenesisSeated` | pallets/dkg-metadata/src/lib.rs:1941-1995 | the genesis committees are seated and filled |
| `Committees.SetSignatureExact` | pallets/dkg-metadata/src/lib.rs:846-863 | an accepted call keeps the pending pair proper if and only if the value is below the pending keygen threshold |
| `Committees.SetSignatureBreaks` | pallets/dkg-metadata/src/lib.rs:851-855 | a call that is accepted and breaks the pending pair |
| `Committees.ChangeSeatsAll` | pallets/dkg-metadata/src/lib.rs:1855-1860 | an authority change that asks for all queued authorities seats them all, whoever is jailed |
| `Committees.FillInsBreakPair` | pallets/dkg-metadata/src/lib.rs:1190-1216 | a run from a genesis of five validators that ends with the next pair at two of two |
| `Stalls.RunStalls` | pallets/dkg-metadata/src/lib.rs:988-1034 | without a next key, with a signature threshold above the number of next best members and no signing report that would lower it far enough, no run without a forced rotation takes a next key, rotates or announces again |
| `Stalls.StallsExactly` | pallets/dkg-metadata/src/lib.rs:988-1034 | between two keys, rotations stop for good (until one is forced) if and only if the next best set is empty or smaller than the next signature threshold, and no signing report about the committee in office lowers that far enough |
| `Stalls.ChangeAgrees` | pallets/dkg-metadata/src/lib.rs:1819-1860 | the committee an authority change schedules can back a key if and only if the pending signature threshold is not above the keygen threshold, or no more than one authority beyond that is queued |
| `Stalls.RotationAgrees` | pallets/dkg-metadata/src/lib.rs:1819-1882 | after a rotation a key can be backed, at once or after a signing report, if and only if those thresholds are in reach or the committee taking office is smaller than its threshold and small enough |
| `Stalls.SetSignatureStallsExactly` | pallets/dkg-metadata/src/lib.rs:846-863 | after an accepted signature threshold and a session change, rotations stop for good if and only if the value is above the pending keygen threshold, more than one authority beyond that is queued, and no signing report about the committee taking office lowers it far enough |
| `Stalls.GenesisStalls` | pallets/dkg-metadata/src/lib.rs:846-863 | a run from a genesis of 1-of-3 with ten validators that announces once and never again unless a rotation is forced |
| `Stalls.CycleAnnounces` | pallets/dkg-metadata/src/lib.rs:976-1036 | from any state without a next key whose next best set can back one: the key backed by that set, a block, its signature and a session change announce the proposal made, with the nonce after the last |
| `Stalls.RunLost` | pallets/dkg-metadata/src/lib.rs:433-441 | while a stored next key waits for a signature of a proposal the handler no longer holds and no new one is made, no covering run without an emergency keygen changes keys or announces |
| `Stalls.HaltsExactly` | pallets/dkg-metadata/src/lib.rs:410-444 | in every state: announcements stop for good, short of forced rotations and emergency keygens, if and only if no next key is stored and none can be backed, or one is stored without signature, the handler does not hold its proposal, and either a refresh is marked in progress or the key does not decompress |
| `Stalls.GenesisLoses` | pallets/dkg-metadata/src/lib.rs:1552-1571 | a run from genesis in which the handler drops the proposal and nothing is ever announced |
| `Announcements.ForcedNumberingExact` | pallets/dkg-metadata/src/lib.rs:1358-1396 | after a forced rotation every run without further forced ones numbers its announcements 1, 2, 3, ... without a gap if and only if there was no next key that decompresses or no later key can be backed, now or after a signing report |
| `Announcements.ForcedGap` | pallets/dkg-metadata/src/lib.rs:1358-1396 | a run from genesis whose first announced nonce is two |
| `Announcements.LeftoverAnnounced` | pallets/dkg-metadata/src/lib.rs:2480-2531 | a proposal the handler holds without a next key can be signed for another next key and be announced with it |
| `Announcements.LeftBehindExact` | pallets/dkg-metadata/src/lib.rs:2480-2531 | between two keys every covering run announces only matching keys if and only if the handler holds no pending proposal or no other key can be backed |
| `Announcements.EmergencyCoverExact` | pallets/dkg-metadata/src/lib.rs:1406-1418 | after an emergency keygen every covering continuation announces only keys that match their proposal if and only if the handler holds no pending proposal or no other key can be backed, now or after a signing report |
| `Announcements.ForcedCoverExact` | pallets/dkg-metadata/src/lib.rs:1358-1396 | after a forced rotation every covering continuation does if and only if there was no next key that decompresses, or the handler does not hold its proposal, or no later key can be backed |
| `Announcements.SecondCopyAnnounced` | pallets/dkg-metadata/src/lib.rs:1406-1418 | a run from genesis with two copies of one proposal: the first comes back in vain, the second is announced with another key |
| `BridgeRegistry.Registry.constructor` | pallets/bridge-registry/src/lib.rs:121-132 | genesis with its preset bridges, numbered from one |
| `BridgeRegistry.PresetKeeps` | pallets/bridge-registry/src/lib.rs:121-132 | preset bridges whose lists fit and share no resource are labelled as components |
| `BridgeRegistry.Registry.SetMetadata` | pallets/bridge-registry/src/lib.rs:196-216 | replaces the information and keeps the resource list, or refuses too many fields |
| `BridgeRegistry.Registry.OnSignedProposal` | pallets/bridge-registry/src/lib.rs:251-320 | all branches, with the writes made before a failure left in place |
| `BridgeRegistry.StepKeeps` | pallets/bridge-registry/src/lib.rs:251-320 | every link and metadata call keeps index map, links and lists in agreement |
| `BridgeRegistry.RunLabelsComponents` | pallets/bridge-registry/src/lib.rs:251-320 | in every run two assigned resources have one index if and only if they are connected by links that took effect; a listed resource maps to its bridge and a mapped one is listed unless the list is full |
| `BridgeRegistry.MergeRefusedExactly` | pallets/bridge-registry/src/lib.rs:314-316 | a link is refused if and only if it would merge two existing components |
| `BridgeRegistry.LinkOutcome` | pallets/bridge-registry/src/lib.rs:298-316 | the only other failure is for want of room, exactly when one new resource meets a full list |
| `BridgeRegistry.TwoPairsCollide` | pallets/bridge-registry/src/lib.rs:282-297 | with room for fewer than two resources two unconnected pairs get one index |
| `BridgeRegistry.LabelsExactly` | pallets/bridge-registry/src/lib.rs:251-320 | the index map labels components in every run if and only if a bridge may list at least two resources |
| `ProposalHandler.CollectRefreshIds` | pallets/dkg-proposal-handler/src/impls.rs:88-99 | the nested loops collect the ids of exactly the queued batches that hold a refresh |
| `ProposalHandler.PurgeIdempotent` | pallets/dkg-proposal-handler/src/impls.rs:85-105 | repeating the purge for further refreshes of the batch changes nothing |
| `ProposalHandler.Handler.constructor` | pallets/dkg-proposal-handler/src/lib.rs:285-309 | empty storage |
| `ProposalHandler.Handler.GenerateNextBatchId` | pallets/dkg-proposal-handler/src/functions.rs:42-48 | the id counter, or nothing at the end of its range |
| `ProposalHandler.Handler.CreateBatchAndAddToStorage` | pallets/dkg-proposal-handler/src/functions.rs:50-63 | queues the chain's staged list under the next id, or changes nothing |
| `ProposalHandler.Handler.StoreUnsignedProposal` | pallets/dkg-proposal-handler/src/functions.rs:67-103 | appends to the chain's list, batching a full one first; a failed id leaves everything unchanged |
| `ProposalHandler.Handler.HandleUnsignedProposal` | pallets/dkg-proposal-handler/src/impls.rs:10-23 | refuses what does not decode, else stores it |
| `ProposalHandler.Handler.OnIdleCreateProposalBatches` | pallets/dkg-proposal-handler/src/functions.rs:306-348 | batches staged lists in iteration order until weight or ids run out |
| `ProposalHandler.Handler.OnIdleRemoveExpiredBatches` | pallets/dkg-proposal-handler/src/functions.rs:350-398 | removes expired batches in iteration order until weight runs out |
| `ProposalHandler.Handler.OnIdle` | pallets/dkg-proposal-handler/src/lib.rs:427-439 | both on even blocks, nothing on odd ones |
| `ProposalHandler.Handler.RemoveRefreshBatches` | pallets/dkg-proposal-handler/src/impls.rs:88-103 | one pass of the purge removes the chain's keys whose id some refresh-holding batch has |
| `ProposalHandler.Handler.HandleSignedProposalBatch` | pallets/dkg-proposal-handler/src/impls.rs:25-134 | all checks in order, then signed, unqueued and, for a refresh, purged |
| `ProposalHandler.Handler.SubmitSignedProposals` | pallets/dkg-proposal-handler/src/lib.rs:445-516 | each batch in turn, bad signatures passed over, and everything undone when one fails |
| `ProposalHandler.Handler.ForceRemoveUnsignedProposalBatch` | pallets/dkg-proposal-handler/src/lib.rs:648-665 | removes a queued batch or reports that there is none |
| `ProposalRuns.AcceptKeeps` | pallets/dkg-proposal-handler/src/functions.rs:67-103 | accepting a proposal keeps the four laws |
| `ProposalRuns.EnqueueKeeps` | pallets/dkg-proposal-handler/src/functions.rs:50-63 | so does turning a staged list into a batch |
| `ProposalRuns.SealKeeps` | pallets/dkg-proposal-handler/src/impls.rs:80-83 | and signing a batch |
| `ProposalRuns.LeaveKeeps` | pallets/dkg-proposal-handler/src/impls.rs:85-105 | and removing any batches, for whatever reason |
| `ProposalRuns.StepKeeps` | pallets/dkg-proposal-handler/src/functions.rs:306-398 | every operation keeps them |
| `ProposalLaws.RunConserves` | pallets/dkg-proposal-handler/src/functions.rs:42-103 | under every interleaving: per chain, batches in id order followed by the staged list are the accepted submissions in order; batches are non-empty, bounded and of one chain; ids are unique; each batch is queued, signed or removed, never two |
| `ProposalLaws.SubmitOutcome` | pallets/dkg-proposal-handler/src/functions.rs:67-103 | a decoded submission is refused only when its list is full and the ids have run out, and then nothing changes |
| `ProposalLaws.NeverEmptyExactly` | pallets/dkg-proposal-handler/src/functions.rs:368-371 | no batch is ever empty, as expiry relies on, if and only if a batch has room for a proposal or none can be made; the failing run submits a refresh, which nothing undoes |
| `ProposalLaws.NeverOverwrites` | pallets/dkg-proposal-handler/src/impls.rs:74-78 | the guard against overwriting a signed batch never fires, and a signed batch is accepted exactly under the other checks |
| `ProposalLaws.PurgeExactly` | pallets/dkg-proposal-handler/src/impls.rs:85-105 | signing a refresh removes exactly the refresh-holding batches of that chain although ids are collected over all chains |
| `ProposalLaws.OneRotationExactly` | pallets/dkg-proposal-handler/src/impls.rs:85-105 | no refresh stays queued if and only if every queued one was on the signed chain |
| `ProposalLaws.RefreshLeftQueued` | pallets/dkg-proposal-handler/src/impls.rs:85-105 | a run that signs a refresh on one chain and leaves one queued on another |
| `ProposalLaws.IdleDrainsExactly` | pallets/dkg-proposal-handler/src/functions.rs:306-348 | idle batching empties the staging area if and only if ids last and either some proof size is left or reference time outlasts the charges |
| `ProposalLaws.IdleExpiresExactly` | pallets/dkg-proposal-handler/src/functions.rs:350-398 | for every weight only expired batches go, and all of them if and only if there are none or some proof size is left or reference time outlasts the charges |
| `ProposalLaws.LeavesOnly` | pallets/dkg-proposal-handler/src/functions.rs:368-380 | a batch that starts with a refresh leaves the queue only by the signature of its id, by the purge of its chain or by force |
| `ProposalLaws.ProtectedExactly` | pallets/dkg-proposal-handler/src/functions.rs:368-380 | in every reachable state a queued batch with a refresh stays queued over every run without signatures and forced removals if and only if the refresh is its first proposal |
| `ProposalLaws.LaterRefreshExpires` | pallets/dkg-proposal-handler/src/functions.rs:368-380 | a run from empty storage in which an accepted refresh is gone by expiry |
| `WorkSpec.Acceptable` | dkg-runtime-primitives/src/lib.rs:95-104 | the written-out tolerance test is a distance of at most eight blocks |
| `WorkManager.Manager.constructor` | dkg-gadget/src/signing_manager/work_manager.rs:59-80 | empty sets and store |
| `WorkManager.Manager.DeliverMessage` | dkg-gadget/src/signing_manager/work_manager.rs:320-371 | to the first matching waiting job, else to the matching active one, else into the store under its own hash and signing set |
| `WorkManager.Manager.DeliverQueue` | dkg-gadget/src/signing_manager/work_manager.rs:281-292 | a stored queue goes to the job front first, messages no longer acceptable are dropped |
| `WorkManager.Manager.DeliverStored` | dkg-gadget/src/signing_manager/work_manager.rs:272-299 | only the queue of the job's signing set is taken; the others are put back |
| `WorkManager.Manager.StartJobUnconditional` | dkg-gadget/src/signing_manager/work_manager.rs:264-313 | delivers stored messages when the start succeeds, and activates the job unless its hash is active already |
| `WorkManager.Manager.PushTask` | dkg-gadget/src/signing_manager/work_manager.rs:127-161 | starts a forced job at once, queues any other |
| `WorkManager.Manager.StartTasks` | dkg-gadget/src/signing_manager/work_manager.rs:214-222 | starts waiting jobs front first up to a number |
| `WorkManager.Manager.PollTasks` | dkg-gadget/src/signing_manager/work_manager.rs:181-222 | drops stalled and finished jobs and fills the free slots |
| `WorkManager.Manager.RetainAcceptable` | dkg-gadget/src/signing_manager/work_manager.rs:224-250 | removes outdated messages queue by queue and lists the queues left empty |
| `WorkManager.Manager.RemoveEmptyQueues` | dkg-gadget/src/signing_manager/work_manager.rs:252-261 | afterwards no queue and no inner map is empty and no message is lost |
| `WorkManager.Manager.Poll` | dkg-gadget/src/signing_manager/work_manager.rs:181-262 | the whole poll refines the place-by-place pruning after the job phase |
| `WorkManager.StoreExtensional` | dkg-gadget/src/signing_manager/work_manager.rs:42-47 | a nested store without empty queues is determined by its queues |
| `WorkRuns.HandAllSpends` | dkg-gadget/src/signing_manager/work_manager.rs:281-292 | emptying a queue into a job sends or discards each message exactly once |
| `WorkRuns.StartKeeps` | dkg-gadget/src/signing_manager/work_manager.rs:264-313 | starting a job keeps the message account |
| `WorkRuns.StartLeavesOthers` | dkg-gadget/src/signing_manager/work_manager.rs:295-298 | starting a job leaves the queues of every other hash and signing set as they were |
| `WorkRuns.MatchDelivers` | dkg-gadget/src/signing_manager/work_manager.rs:328-341 | a waiting job is found if and only if one matches session, hash, signing set and block window |
| `WorkRuns.DeliverKeeps` | dkg-gadget/src/signing_manager/work_manager.rs:320-371 | delivering a message keeps the message account |
| `WorkRuns.PruneKeeps` | dkg-gadget/src/signing_manager/work_manager.rs:224-261 | so does pruning, in any iteration order |
| `WorkLaws.RunAccounts` | dkg-gadget/src/signing_manager/work_manager.rs:181-371 | in every run each message given is stored at its own place, sent to a matching job or discarded, as many times in all as it was given, and no empty queue exists |
| `WorkLaws.DeliverOutcome` | dkg-gadget/src/signing_manager/work_manager.rs:320-371 | a message is stored, last in its own queue, if and only if no waiting or active job matches it; otherwise it goes to one matching job and is lost only when that job is over |
| `WorkLaws.StartSends` | dkg-gadget/src/signing_manager/work_manager.rs:281-292 | a running job gets, in order, exactly the stored messages it should, and only the others are discarded |
| `WorkLaws.PollKeepsRunning` | dkg-gadget/src/signing_manager/work_manager.rs:181-222 | a poll keeps every job that is neither stalled nor done, and every job active afterwards was kept or waiting |
| `WorkLaws.PollPrunes` | dkg-gadget/src/signing_manager/work_manager.rs:224-261 | after a poll each place holds, in order, exactly its messages within tolerance of now |
| `WorkLaws.RunStartsInOrder` | dkg-gadget/src/signing_manager/work_manager.rs:127-222 | in every run jobs leave the queue in push order and the active set exceeds the limit by at most the number of forced starts |
| `WorkLaws.PollFillsExactly` | dkg-gadget/src/signing_manager/work_manager.rs:214-222 | a poll ends with an empty queue or a full active set if and only if the queue fits the free slots or the jobs taken have fresh hashes |
| `WorkLaws.FreshRunFills` | dkg-gadget/src/signing_manager/work_manager.rs:181-222 | when callers check that a task is not there before pushing it, every poll of every run does |
| `WorkLaws.CheckedPushesFill` | dkg-gadget/src/signing_manager/work_manager.rs:181-222 | in particular from the start |
| `SigningRetry.Manager.LatestAttempt` | dkg-gadget/src/signing_manager/mod.rs:213-219 | the latest local start among the sets |
| `SigningRetry.Manager.FindNextSsid` | dkg-gadget/src/signing_manager/mod.rs:240-248 | the number after the largest attempted one, with 16-bit wrap-around |
| `SigningRetry.Manager.TryProposal` | dkg-gadget/src/signing_manager/mod.rs:203-305 | one pass over a proposal: forgotten when done, skipped while an attempt runs, otherwise the next set is generated, chosen and marked; other proposals are untouched |
| `SigningRetry.Manager.OnBlockFinalized` | dkg-gadget/src/signing_manager/mod.rs:191-389 | the loop over the proposals of a block visits them in order up to the first that finds the work manager full or whose protocol does not start, and no further |
| `SigningRetry.Manager.ReportSuccess` | dkg-gadget/src/signing_manager/mod.rs:397-400 | forgets the proposal |
| `SigningRetry.Manager.ReportFailure` | dkg-gadget/src/signing_manager/mod.rs:401-403 | records the set as attempted |
| `RetryLaws.RetriesCycle` | dkg-gadget/src/signing_manager/mod.rs:213-303 | with k sets and failures of the current round only, the attempts of every run are 0, 1, ..., k-1, 0, 1, ..., at least the signing timeout apart |
| `RetryLaws.SetsStay` | dkg-gadget/src/signing_manager/mod.rs:250-260 | after the first attempt the sets are never generated again |
| `RetryLaws.OnScheduleExactly` | dkg-gadget/src/signing_manager/mod.rs:394-405 | a reported failure leaves the next attempt where it was if and only if its set was tried in the current round |
| `RetryLaws.TriesExactly` | dkg-gadget/src/signing_manager/mod.rs:213-292 | a block tries a set if and only if no attempt is running, the tracker is not stuck and, for a first attempt, there are sets |
| `RetryLaws.StuckExactly` | dkg-gadget/src/signing_manager/mod.rs:240-292 | over any run a tracker with attempts but no sets stays so throughout if and only if no success is reported, and until then no block tries a set |
| `RetryLaws.ForgetRestarts` | dkg-gadget/src/signing_manager/mod.rs:397-400 | after a success the next block tries the first set again |
| `RetryLaws.LateFailureStops` | dkg-gadget/src/signing_manager/mod.rs:394-405 | a failure reported after the history was removed leads there: until another success no block of any run tries a set |
| `RetryLaws.TooFewStop` | dkg-gadget/src/signing_manager/mod.rs:250-292 | so does a first block with fewer authorities than the signature threshold asks for, which generates no sets |
| `RetryLaws.StoppedExactly` | dkg-gadget/src/signing_manager/mod.rs:213-303 | in any run from a new tracker, trying has stopped if and only if the first event since the last success is a failure or a block without sets; that settles when a block tries a set |
| `RetryLaws.PassIsEvents` | dkg-gadget/src/signing_manager/mod.rs:191-389 | the loop over many proposals is, for the tracker of each, just the events of that proposal |
| `SigningSets.CombinationsExact` | dkg-gadget/src/signing_manager/mod.rs:460-465 | the combinations are exactly the increasing choices of the given size |
| `SigningSets.CombinationsDistinct` | dkg-gadget/src/signing_manager/mod.rs:460-465 | each is listed once |
| `SigningSets.GeneratedSets` | dkg-gadget/src/signing_manager/mod.rs:447-483 | generated sets are t+1 different authorities; there are min(256, binomial) of them, and some if and only if t+1 authorities exist |
| `SigningSets.AllChoicesGenerated` | dkg-gadget/src/signing_manager/mod.rs:460-467 | every choice is generated when there are at most 256 |
| `SigningSets.FirstAlwaysNeeded` | dkg-gadget/src/signing_manager/mod.rs:460-467 | the first authority is in every generated set if and only if 256 choices hold it or all authorities are needed |
| `LruFilter.LruHashMap.constructor` | dkg-gadget/src/gossip_engine/network.rs:684-687 | an empty map with its limit |
| `LruFilter.LruHashMap.Insert` | dkg-gadget/src/gossip_engine/network.rs:689-702 | moves or appends the key with its new value, evicts the front at the limit, and reports whether the key was new |
| `LruFilter.LruHashMap.Get` | dkg-gadget/src/gossip_engine/network.rs:704-708 | the held value, none exactly when the key is not held |
| `LruFilter.CacheIsRecent` | dkg-gadget/src/gossip_engine/network.rs:678-709 | after any history the map holds exactly the most recently inserted distinct keys, one fewer than the limit, in recency order with their last values |
| `GossipSends.HeldExactly` | dkg-gadget/src/gossip_engine/network.rs:694-702 | a key is still held if and only if fewer than limit - 1 distinct keys were inserted after it |
| `GossipSends.PeerLink.constructor` | dkg-gadget/src/gossip_engine/network.rs:719-723 | a new connection knows no message |
| `GossipSends.PeerLink.OnSignedMessage` | dkg-gadget/src/gossip_engine/network.rs:555-557 | a received message becomes known |
| `GossipSends.PeerLink.SendSignedMessage` | dkg-gadget/src/gossip_engine/network.rs:619-636 | a message goes out exactly when the filter did not know it, and becomes known |
| `GossipSends.FirstSendGoesOut` | dkg-gadget/src/gossip_engine/network.rs:619-636 | a message not seen in the connection goes out |
| `GossipSends.ResendExactly` | dkg-gadget/src/gossip_engine/network.rs:619-636 | a message seen before goes out again if and only if at least limit - 1 distinct messages were seen since |
| `GossipSends.SendsApart` | dkg-gadget/src/gossip_engine/network.rs:619-636 | two sends of one message that go out are separated by at least limit - 1 other distinct messages |

## Left out

- Cryptography: ECDSA recovery, keccak, key decompression, the wsts and GG20 internals and the aggregator are uninterpreted functions.
- Network errors and unordered or lossy broadcast in the FROST exchange; `validate_parameters` is not modelled.
- Account lists, the unsigned-transaction rate limits and priorities, consensus log digests and events other than the announced refresh.
- The collection of reports over several calls; runs take a report with its number of valid reporters.
- Numeric widths of reputations and thresholds; set id and refresh nonce saturate in the model as in the source, and the laws over runs assume the counters stay below saturation.
- Jail sentences: an authority may leave either jail at any time.
- Session-progress estimates, the offchain workers of both pallets, weights and benchmarking.
- Equality of a signed batch's contents with the queued batch: the pallet does not compare them.
- `submit_dkg_signing_offence`, and the validation of single proposals beyond whether they decode, for which chain and whether they are a refresh.
- `force_reset_indices`; the registry laws are about runs of links and metadata calls, from genesis presets that share no resource.
- Overflow of the bridge index, the work manager's channel to its poller, and what dropping a job does to its asynchronous task.
- The shuffle of the generated signing sets is any permutation.
- Which refresh proposals the handler holds is a multiset of encoded proposals, from which copies may vanish at any time; its queue has its own model.
- `pending_messages_peers` and the duplicate counters of the gossip engine, which only feed peer reputation.
- `keygen_manager`, `worker.rs`, databases, keystore, metrics, test orchestrator and relayer: mostly input and output.
