# PulseSyn in Dafny

PulseSyn is a claim-validation protocol: validators vote on claims, votes are weighted by
reputation and bias, and the finished vote sets are committed to a hash tree and stored under
index keys. This project models five parts of it and proves what they promise.

- **Vote commitment** (`MerkleSpec`, `MerkleLaws`, `MerkleTree`). A recursive definition of the
  tree, laws about what a root and a proof commit to, and the class that builds layers of byte
  arrays in a loop and hands out copies. SHA-256 is a parameter: any function from byte strings to
  32-byte digests. No collision freedom is assumed. Since every such function has collisions,
  "or there is a collision" would say nothing; every soundness law instead computes two different
  byte strings from its arguments, and says which of them the builder or the verifier really hashed.
- **Consensus** (`Verdicts`, `Consensus`, `ConsensusLaws`, `Finalization`). Weighted aggregation, quorum, strict
  majority and confidence: the loops, the functions they compute, and laws over all vote lists.
- **Reputation and bias** (`Reputation`, `ReputationLaws`, `Bias`, `BiasLaws`). Clamped updates and
  decay on immutable records, and the sliding windows and keyed tracker that are mutated in place.
- **Store** (`StoreKeys`, `StoreModel`, `StoreLaws`, `StoreLookups`,
  `StoreRegisters`, `Store`). An ordered map from
  string keys to decoded values, one step per committed transaction, and lookups that scan one
  snapshot and fetch from a later one.
- **Simulation** (`SimModel`, `SimPool`, `SimRound`, `SimSafety`, `SimBound`, `SimQuiet`, `SimRuns`,
  `SimWorst`, `SimFirstRound`, `SimAllRounds`, `SimSecondRound`, `SimWindows`, `SimScript`,
  `SimFlags`, `SimFlips`, `SimReport`, `Simulation`, `Scenarios`). The round loop that ties consensus, reputation
  and bias together. `SimModel` is the state machine on values, `Simulation` the same steps on
  mutable objects, proved equal to it. The random source is an arbitrary stream of draws in [0, 1)
  and of permutations, so the theorems about runs hold for every seed.

`Wrappers`, `Text`, `StringOrder`, `Reals` and `Sums` are shared helpers. `float64` is modelled by
exact reals. Keys and identifiers are sequences of characters compared by code point, which is the
byte order of their UTF-8 encodings. An error is a value of a `Result` or `Option`; its text is not
modelled.

The code and its comments disagree in these places. The model follows the code, and the member named
says exactly when the two differ:

- `core/reputation/reputation.go:177-179` says the score is clamped to the floor; the code clamps to 0, as
  `DECISIONS.md:46` has it (`ReputationLaws.CutOffIsZero`). Updates and decays clamp to the floor before
  they call it, so no history of them shows the difference (`ReputationLaws.ReplaySound`).
- `core/reputation/decay.go:45-47` writes the formula over all inactive days; the code counts only the
  days beyond the first 30, as lines 9-10 say (`ReputationLaws.DocumentedDecayExactly`).
- `DECISIONS.md:46-48` keeps the floor off other writes so that nobody becomes eligible without earning
  it; an update or decay of a domain without history does make its validator eligible, even when it is
  a penalty (`ReputationLaws.EligibleExactly`, `ReputationLaws.AbsenceMakesEligible`).
- `store/vote.go:72-74` promises write-once per (claim, validator) pair; the code refuses by composite
  key, which two pairs can share (`StoreLookups.VoteRefusedExactly`, `StoreLookups.SlashClaimBlocksVote`).
- `simulation/report.go:42-44` counts validators flagged at least once; the code counts those flagged at
  the end of the run (`SimFlags.CountsEveryFlagExactly`, `SimFlips.LongRunsExactly`).
- `simulation/round.go:29-31` says `correct` excludes INDETERMINATE; the code sets it on any match
  (`SimSafety.CorrectAsDocumented`, `SimSafety.SafeCorrectAsDocumented`), and only `accumulate` excludes it.
- `core/bias/bias.go:107-112` describes an average that excludes the validator itself; the simulation's
  average includes it, which shrinks every deviation by (n - 1) / n (`SimRound.OwnVoteDampens`).
- `simulation/simulation.go:17-19` rules out internal errors for valid configurations; a domain of blanks
  passes validation and makes the first round fail (`SimRuns.FailsExactly`).

## Model

| member | source | states |
|---|---|---|
| MerkleLaws.GeneratedProofAccepted | merkle/merkle.go:108-165 | Completeness: for every leaf list and valid index, the generated proof has ceil(log2 n) siblings and is accepted against the root. |
| MerkleLaws.AcceptedExactlyWhenOpens | merkle/merkle.go:149-165 | Soundness, both ways, for arbitrary proofs of any length and sibling size: accepted exactly when the proof is a path of this tree whose bits lead to `data`, or two distinct strings with one digest are computed, one hashed by the builder and one by the verifier. |
| MerkleLaws.ForgeryIsCollision | merkle/merkle.go:149-199 | An accepted proof of the wrong length, or for data that is not a leaf, yields such a collision. |
| MerkleLaws.SplitForced | merkle/merkle.go:193-199 | Internal hash inputs split at one place, whatever sibling length the prover sends, because digests have 32 bytes. |
| MerkleLaws.BitsDetermineProof | merkle/merkle.go:149-165 | Two proofs that open one tree with equal IsLeft bits are the same proof of the same data. |
| MerkleLaws.OpeningsExactly | merkle/merkle.go:116-141 | All proofs of a leaf: one node per layer with the reported hashes, and with the reported sides except where the leaf's ancestor is the last node of an odd layer, where either side will do. |
| MerkleLaws.SecondProofExactly | merkle/merkle.go:121-136 | A leaf has a proof other than the generated one exactly when one of its ancestors below the root is the last node of an odd layer. |
| MerkleLaws.FlippedIsOtherProof | merkle/merkle.go:126-130 | For every such layer, flipping that side of the generated proof gives another accepted proof. |
| MerkleLaws.OddLeafHasTwoProofs | merkle/merkle.go:126-130 | Two instances with accepted second proofs: the last leaf of every odd list, and leaf 4 of every list of six. |
| MerkleLaws.SameRootExactly | merkle/merkle.go:51-99 | Which lists of any two lengths share a root: those of one depth whose leaves, with every layer's repeats written out, are the same; any other pair with equal roots yields a computed collision between a string hashed for one tree and one hashed for the other. |
| MerkleLaws.RootBindsLeaves | merkle/merkle.go:51-99 | Binding, as a consequence: equal roots over lists of one length mean equal lists, or such a collision. |
| MerkleLaws.RepeatedLastLeafSameRoot | merkle/merkle.go:73-80 | Also a consequence, so the number of leaves is not bound: for every hash, repeating the last leaf of an odd list of more than one keeps the root. |
| MerkleLaws.RootIsPerfect | merkle/merkle.go:73-87 | The root, in bytes: H([1] + left + right) over the perfect tree of 2^depth leaves in which each layer's repeat is written out, down to H([0] + data). |
| MerkleLaws.SixLeavesExpand | merkle/merkle.go:73-87 | That expansion is not padding with the last leaf: six leaves become 0 1 2 3 4 5 4 5. |
| MerkleLaws.NodeInBytes | merkle/merkle.go:56-87 | Every node in bytes: a leaf is H([0] + data), and above it H([1] + left + right) over its children in order, the last child of an odd layer twice. |
| MerkleLaws.FoldInBytes | merkle/merkle.go:149-165 | What a verifier computes, in bytes: H([0] + data) first, then per sibling H([1] + sibling + current) if it is on the left and H([1] + current + sibling) if not. |
| MerkleSpec.WidthIsCeiling | merkle/merkle.go:64-87 | Layer l of a tree over n leaves has ceil(n / 2^l) nodes. |
| MerkleSpec.TopIsSingle | merkle/merkle.go:64-71 | The layers first reach a single node at the depth, so the loop stops there and not before. |
| MerkleSpec.DepthIsCeilLog | merkle/merkle.go:64-90 | The number of layers above the leaves is ceil(log2 n). |
| MerkleTree.Build | merkle/merkle.go:51-90 | Fails exactly on the empty list; otherwise every stored layer holds the digests of the recursive tree (in bytes: NodeInBytes), in fresh memory. |
| MerkleTree.Tree.StackLayers | merkle/merkle.go:61-89 | The build loop terminates with all layers up to the single root. |
| MerkleTree.NextLayer | merkle/merkle.go:73-86 | One layer of pairwise hashing, the last node of an odd layer paired with itself, is the next layer of the recursive tree, whose bytes NodeInBytes gives. |
| MerkleTree.HashLeaves | merkle/merkle.go:56-59 | The bottom layer holds the leaf digests in order. |
| MerkleTree.Tree.Root | merkle/merkle.go:94-99 | A fresh copy of the recursive tree's root, which RootIsPerfect gives in bytes. |
| MerkleTree.Tree.CopySibling | merkle/merkle.go:117-139 | A fresh copy of the sibling, the node itself at the odd end, with the right side bit. |
| MerkleTree.Tree.GenerateProof | merkle/merkle.go:108-144 | Fails exactly outside the leaf range; otherwise returns fresh copies of the siblings on the path, and the proof is accepted against the root. |
| MerkleTree.VerifyProof | merkle/merkle.go:149-165 | False for a missing proof; otherwise whether the fold of the siblings into the leaf, which FoldInBytes gives in bytes, equals the root. |
| Consensus.AggregateWeights | core/consensus/consensus.go:162-179 | The loop computes the sum of the weights of each verdict and of all votes. |
| Consensus.FindWinner | core/consensus/consensus.go:193-211 | The candidate with the greatest mass, the earliest of equals. |
| Consensus.WinnerIndex | core/consensus/consensus.go:193-211 | No candidate has more mass, no earlier one has as much, and only one index has both properties. |
| Consensus.ComputeConfidence | core/consensus/consensus.go:216-230 | The loop computes the winners' weighted confidence over their mass, or 0 without mass. |
| Consensus.FirstInvalid | core/consensus/consensus.go:95-99 | The first refused vote, all before it being valid. |
| Consensus.ComputeConsensus | core/consensus/consensus.go:87-153 | The method computes the decision function on all inputs, error cases included; ResultInVotes, RateIsVotesPerSeat and ErrorsAre say what that is. |
| ConsensusLaws.MassesPartition | core/consensus/consensus.go:162-179 | The four masses of valid votes are non-negative and add up to the total. |
| ConsensusLaws.DecisionIs | core/consensus/consensus.go:101-152 | The decision in integers and products: 3 votes for 2 seats of a given set size, and twice the winner's mass above the total. |
| ConsensusLaws.VerdictExactly | core/consensus/consensus.go:101-152 | A verdict is declared exactly when quorum holds and it outweighs all others together; otherwise INDETERMINATE with confidence 0. |
| ConsensusLaws.ResultInVotes | core/consensus/consensus.go:87-230 | The result from the fields of the votes: the breakdown is the sum of confidence x reputation x (1 - bias) per verdict; a verdict wins exactly by quorum and more than half of that weight, with the weighted mean of its voters' confidences; otherwise INDETERMINATE with confidence 0. |
| ConsensusLaws.RateIsVotesPerSeat | core/consensus/consensus.go:91-101 | The rate times the set size is the number of votes, and the rate is 1 if no size is given. |
| ConsensusLaws.VoteAcceptedExactly | core/consensus/consensus.go:234-262 | Alone, a vote is accepted exactly with an ID, a protocol verdict and three numbers in [0, 1]. |
| ConsensusLaws.ErrorsAre | core/consensus/consensus.go:87-99 | No votes is an error of its own; otherwise the error names the first vote that would be refused alone. |
| ConsensusLaws.ConfidentExactlyWhenWon | core/consensus/consensus.go:106-144 | Confidence is positive exactly when some verdict won, which tells a won INDETERMINATE from no decision. |
| ConsensusLaws.MajorityIsUnique | core/consensus/consensus.go:131-134 | At most one verdict has a majority, whatever the candidate order. |
| ConsensusLaws.OrderIrrelevant | core/consensus/consensus.go:87-153 | The whole result is the same for every permutation of the votes. |
| ConsensusLaws.WeightIsMonotone | core/consensus/consensus.go:187-189 | More confidence, more reputation and less bias never lower a weight. |
| ConsensusLaws.VictoryIsStable | core/consensus/consensus.go:131-152 | A winning verdict survives stronger supporters, weaker or converted opponents and additional supporters. |
| ConsensusLaws.ConfidenceIsAverage | core/consensus/consensus.go:144-230 | For a winner the divisor is positive, so the zero branch is dead, and the score is positive and between any bounds on the weighted winners' confidence. |
| ConsensusLaws.ConfidenceAtLeastPlainMean | core/consensus/consensus.go:216-230 | The score is at least the winners' mean confidence weighted by reputation x (1 - bias). |
| ConsensusLaws.IndeterminateCanWin | core/consensus/consensus.go:144-152 | INDETERMINATE can win by majority with positive confidence. |
| ConsensusLaws.RateIsFractionExactly | core/consensus/consensus.go:91-101 | The participation rate is positive, and at most 1 exactly when no set size is given or the votes do not outnumber it. |
| ConsensusLaws.ParticipationCanExceedOne | core/consensus/consensus.go:101 | An instance: two votes of a set of one give a rate of 2. |
| Finalization.StorableExactly | store/validation.go:55-75 | The result of a consensus over valid votes passes the store's checks exactly when the votes did not outnumber the set. |
| Reputation.ComputeGlobalReputation | core/reputation/reputation.go:199-208 | Adding up in any map order gives the exact mean. |
| Reputation.SumScoresAnyOrder | core/reputation/reputation.go:203-207 | Whichever domain is taken first, the sum is the same. |
| Reputation.CopyWithUpdatedDomainScore | core/reputation/reputation.go:180-193 | The copying loop gives the old scores with one entry clamped to [0, 1] and replaced, and the mean recomputed. |
| Reputation.NewGenesisValidatorRecord | core/reputation/reputation.go:127-154 | The loop over the domains builds the genesis record, error cases included. |
| ReputationLaws.GenesisScoresAre | core/reputation/reputation.go:135-141 | Exactly the non-blank normalised domains are recorded, all at 0.75. |
| ReputationLaws.GenesisRecordSound | core/reputation/reputation.go:127-154 | Fails exactly on a blank ID or no domains, each with its error; otherwise an active genesis record with the invariant and a global reputation of exactly 0.75, or 0 without a usable domain. |
| ReputationLaws.NewRecordSound | core/reputation/reputation.go:109-122 | Fails exactly on a blank ID; otherwise an active record under the trimmed ID, every domain scores 0 and the invariant holds. |
| ReputationLaws.ApplyIsRescore | core/reputation/updates.go:73-98 | An accepted operation rescored its own domain and left every other alone; a refused one changed nothing; the invariant is kept. |
| ReputationLaws.ReplaySound | core/reputation/reputation.go:180-219 | Over every history of updates and decays, recorded scores stay in [0.15, 1], the global reputation stays the exact mean, and unnamed domains keep their score. |
| ReputationLaws.ThresholdExactly | core/reputation/reputation.go:23-36 | After any history a score is at the eligibility threshold exactly if it was before, or some accepted update, or decay of more than 30 days, named the domain. |
| ReputationLaws.EligibleExactly | core/reputation/reputation.go:167-175 | The same for eligibility of active validators; nobody else is ever eligible. |
| ReputationLaws.AbsenceMakesEligible | core/reputation/updates.go:83-104 | A new validator is not eligible, and after the penalty for one absence it is. |
| ReputationLaws.HistoryNeverWidensGap | core/reputation/updates.go:73-98 | Two records that live through one history keep their order in every domain, and their gap never widens. |
| ReputationLaws.TotalCountsUpdates | core/reputation/updates.go:86 | The counter counts accepted updates and nothing else, modulo 2^64. |
| ReputationLaws.IdentityStays | core/reputation/reputation.go:180-193 | No history changes ID, genesis flag, registration epoch or status. |
| ReputationLaws.GlobalInBand | core/reputation/reputation.go:199-208 | The global reputation of a sound record is in [0.15, 1], or 0 without any score. |
| ReputationLaws.RefusedExactly | core/reputation/updates.go:131-142 | Which updates and decays are refused, and with which error. |
| ReputationLaws.CutOffIsZero | core/reputation/reputation.go:177-187 | The stored score equals the documented clamp to [floor, 1] exactly from the floor upwards. |
| ReputationLaws.DeltaTable | core/reputation/updates.go:102-128 | Exactly when each of the eight reasons applies, with its gain or loss; only correct votes on time gain, and a wrong vote costs what a right one gains. |
| ReputationLaws.UpdateReportsTruth | core/reputation/updates.go:73-98 | The result names the scores found in the two records; the new one is the old one plus the delta, cut off at 0.15 and 1. |
| ReputationLaws.DecayReportsTruth | core/reputation/decay.go:50-82 | The result names the scores found in the two records; each day beyond 30 takes a thousandth of what is left, cut off at 0.15 and 1; `applied` holds exactly when the score fell. |
| ReputationLaws.DecayNeverRaisesExactly | core/reputation/decay.go:50-82 | ApplyDecay leaves a score at most as high as before exactly within the first 30 days or from the floor upwards; within 30 days the record is unchanged, and a raised score is the floor. |
| ReputationLaws.DecayDirection | core/reputation/decay.go:72-74 | The same for the formula alone, beyond the first 30 days. |
| ReputationLaws.DocumentedDecayExactly | core/reputation/decay.go:41-76 | Beyond 30 days, ApplyDecay stores what the documented formula over all inactive days gives exactly when the days beyond 30 alone bring the product down to the floor. |
| ReputationLaws.DecayComposes | core/reputation/decay.go:72-74 | Decaying twice equals decaying once over the sum of the effective days, in spite of the clamp. |
| ReputationLaws.DecayComposesOnRecords | core/reputation/decay.go:50-82 | The same on records: 30 + a and then 30 + b days equal 30 + a + b days. |
| ReputationLaws.DecayIsGradual | core/reputation/decay.go:72-74 | n effective days lose at most a thousandth of the old score per day. |
| ReputationLaws.DecayReachesFloor | core/reputation/decay.go:72-74 | From 5667 effective days on every score is exactly at the floor. |
| ReputationLaws.DecayIsMonotone | core/reputation/decay.go:72-74 | Monotone in the score, and antitone in the days. |
| Bias.NewWindow | core/bias/bias.go:172-194 | Which error on which input, and otherwise an empty window under trimmed names. |
| Bias.Window.Add | core/bias/bias.go:208-220 | Appends a valid observation and evicts the oldest of a full window; a refused one changes nothing. |
| Bias.Window.ComputeBias | core/bias/bias.go:236-278 | The result for the mean absolute deviation, which AnswerIs states field by field; neither clamp ever changes it. |
| Bias.MeanInUnit | core/bias/bias.go:258-266 | The mean deviation of valid observations is in [0, 1]. |
| Bias.NewTracker | core/bias/bias.go:333-344 | Fails exactly on a non-zero size below 5; 0 means 50; starts without windows. |
| Bias.Tracker.Record | core/bias/bias.go:349-376 | The error and the new windows for every call; an observation refused for its own sake leaves a new empty window. |
| Bias.Tracker.BiasFor | core/bias/bias.go:381-398 | The answer of the window under the key, or the zero-bias answer; AnswerIs states both. |
| Bias.Tracker.ObservationCount | core/bias/bias.go:402-409 | The count that BiasFor reports. |
| BiasLaws.WindowHoldsLastAccepted | core/bias/bias.go:208-220 | After any history of calls each window holds the last `size` observations accepted under its key. |
| BiasLaws.OwnWindowExactly | core/bias/bias.go:360-375 | A pair has a window to itself exactly when no accepted call for another pair came under its key. |
| BiasLaws.KeySeparatesPairs | core/bias/bias.go:360 | Validator IDs without a colon keep the pairs apart, whatever the domains contain. |
| BiasLaws.SharedKeyNeedsColons | core/bias/bias.go:360 | Two pairs collide only if a validator ID and a domain both hold a colon. |
| BiasLaws.ColonsShareWindow | core/bias/bias.go:360 | Two such pairs that do collide. |
| BiasLaws.ColonsMixAnswers | core/bias/bias.go:349-398 | After one Record for each of two such pairs, BiasFor answers for one with both observations and under the other's names. |
| BiasLaws.ColonFreeCallsSeparate | core/bias/bias.go:349-376 | Colon-free validator IDs, or colon-free domains, suffice for a whole history. |
| BiasLaws.BiasIsOfLastAccepted | core/bias/bias.go:349-398 | After any interleaving of accepted and refused calls, BiasFor is computed from exactly the last min(n, size) observations accepted for that pair, if no other pair was recorded under its key. |
| BiasLaws.AnswerIs | core/bias/bias.go:236-295 | That answer, field by field: its names and count; coefficient times count is the sum of the distances between verdict score and average; factor plus coefficient is 1, the factor is in [0, 1], and 1 with fewer than 5 held; each tier is its interval of the coefficient, cut at 0.3, 0.5 and 0.7. |
| BiasLaws.ObservationRefusedExactly | core/bias/bias.go:308-325 | Which observations are refused, and with which error. |
| BiasLaws.EligibleByTier | core/bias/bias.go:282-304 | Eligible exactly in the tiers NEGLIGIBLE and MODERATE. |
| BiasLaws.OneObservationMovesLittle | core/bias/bias.go:208-278 | With at least 5 held, one accepted observation moves the coefficient by at most 1 / (resulting length). |
| BiasLaws.RecoveryIsLinear | DECISIONS.md:88 | k conforming observations bring a full window to at most 1 - k/size, and `size` of them to 0. |
| BiasLaws.FlagIsForgotten | core/bias/bias.go:208-278 | Whatever was recorded before, `size` accepted observations without deviation make the tracker answer 0. |
| StoreKeys.ExtractorsInvertBuilders | store/keys.go:42-76 | Each extractor returns the claim ID its builder put in. |
| StoreKeys.EpochInKey | store/keys.go:46-50 | An epoch index key holds the epoch's value as sixteen lower-case hexadecimal digits. |
| StoreKeys.NamespacesDisjoint | store/keys.go:8-18 | No key lies in two of the seven namespaces. |
| StoreKeys.CompositeKeysInjective | store/keys.go:36-56 | Composite keys are injective when the first component has no slash. |
| StoreKeys.SlashesShareKeys | store/keys.go:36-56 | With slashes, different pairs share one key in each namespace. |
| StoreKeys.EpochKeysSortByEpoch | store/keys.go:46-50 | Over all 64-bit epochs, index keys are ordered exactly by (epoch, claim ID), are injective, and match exactly their own epoch's prefix. |
| StoreLaws.ExecKeepsInvariant | store/validation.go:80-114 | Every transaction keeps: records under their own key, each with its index entries, each entry with its record, and everything write-once unchanged. |
| StoreLaws.HistoryKeepsInvariant | store/vote.go:76-103 | The same over every history of claim, validator, validation and vote transactions. |
| StoreLaws.RecordsAreCommittedWrites | store/validation.go:80-114 | After any history the store's validations and votes are exactly those it held before and those of the committed writes, unchanged but for the normalised domain. |
| StoreLaws.ValidationAcceptedExactly | store/validation.go:55-98 | A validation is accepted exactly if its fields are in range and its claim has none yet. |
| StoreLaws.VoteInvalidExactly | store/vote.go:47-70 | A vote is refused as invalid exactly if one of its fields is out of range. |
| StoreRegisters.ReadsAreRegisters | store/claim.go:14-66 | After any history a read by ID returns what a register of this ID alone would hold: a claim as first written since its last deletion, a validator record as last written unless deleted since, a validation as first accepted, in its normalised domain. |
| StoreLookups.DomainLookupExact | store/validation.go:135-203 | Whatever commits between scan and fetch, the lookup never fails and returns exactly the domain's records as of the scan, each once, by claim ID. |
| StoreLookups.DomainLookupNeedsSeparation | store/validation.go:135-147 | The condition on stored keys is exact: without it even an undisturbed lookup is wrong or fails. |
| StoreLookups.SlashFreeDomainsSeparate | store/keys.go:42-44 | Slash-free domains meet it. |
| StoreLookups.SlashDomainBreaksLookup | store/validation.go:135-147 | One stored record of domain a/b makes the lookup of domain a fail with not-found. |
| StoreLookups.EpochLookupExact | store/validation.go:151-203 | The same for epochs, without any condition. |
| StoreLookups.ValidatorLookupExact | store/vote.go:153-182 | The same for a validator's votes; claim IDs may hold slashes. |
| StoreLookups.ValidatorLookupNeedsSeparation | store/vote.go:153-182 | Its condition is exact too. |
| StoreLookups.SlashFreeValidatorsSeparate | store/keys.go:54-56 | Slash-free validator IDs meet it. |
| StoreLookups.ClaimLookupExact | store/vote.go:125-148 | Never fails, and is exactly the claim's votes by validator ID if and only if no vote of another claim is stored in the scanned range. |
| StoreLookups.SlashFreeClaimsSeparate | store/keys.go:36-38 | Slash-free claim IDs meet that. |
| StoreLookups.DomainHistoryExact | store/validation.go:135-147 | From the operations alone: if no committed write stored a domain with a slash, a lookup returns exactly the records of the committed writes whose normalised domain it is, unchanged but for that domain. |
| StoreLookups.EpochHistoryExact | store/validation.go:151-162 | The same for the written epoch, without any condition. |
| StoreLookups.ValidatorHistoryExact | store/vote.go:153-182 | The same for a validator's votes, if no committed vote has a slash in its validator ID. |
| StoreLookups.ClaimHistoryExact | store/vote.go:125-148 | The same for a claim's votes, if no committed vote has a slash in its claim ID. |
| StoreLookups.ValidationIsPermanent | store/validation.go:77-131 | An accepted validation is read back after every later history, equal in every field to the written one but for the normalised domain, and a second write is refused and changes nothing. |
| StoreLookups.VoteIsPermanent | store/vote.go:72-120 | An accepted vote is read back after every later history and a second vote of the pair is refused. |
| StoreLookups.VoteRefusedExactly | store/vote.go:86-92 | A valid vote is refused as a duplicate exactly when its composite key is taken; that means "this pair has voted" exactly when no other pair's vote has that key. |
| StoreLookups.SlashClaimBlocksVote | store/vote.go:72-92 | A store with one vote, of (a/b, c), where the first vote of (a, b/c) is refused and reading it returns the other pair's vote. |
| StoreLookups.DeleteUndoesWrite | store/claim.go:14-66 | A delete undoes a first write of a claim or validator record and frees its key; a second claim write is refused, and reads agree. |
| Store.NodeStore.WriteClaim | store/claim.go:14-33 | The transaction's error and whole new map. |
| Store.NodeStore.DeleteClaim | store/claim.go:56-66 | The transaction's error and whole new map. |
| Store.NodeStore.WriteValidatorRecord | store/validator.go:16-32 | Overwrites; the whole new map. |
| Store.NodeStore.DeleteValidatorRecord | store/validator.go:55-65 | The transaction's error and whole new map. |
| Store.NodeStore.WriteValidationRecord | store/validation.go:80-114 | Validation, duplicate check and three writes as one step; the whole new map. ReadsAreRegisters says what is read back. |
| Store.NodeStore.WriteVote | store/vote.go:76-103 | Validation, duplicate check and two writes as one step; the whole new map. |
| Store.NodeStore.PrefixScanKeys | store/validation.go:190-203 | The iterator loop yields the identifier of every key under the prefix, in key order. |
| Store.NodeStore.Fetch | store/validation.go:166-186 | Reads in order and stops at the first record that cannot be read. |
| Store.NodeStore.ValidationsByDomain | store/validation.go:135-147 | Scan, any transactions of others, fetch: the two-snapshot lookup. |
| Store.NodeStore.ValidationsByEpoch | store/validation.go:151-162 | The same by epoch. |
| Store.NodeStore.VotesByValidator | store/vote.go:153-182 | The same by validator. |
| Store.NodeStore.FetchFor | store/vote.go:163-181 | Reads the validator's vote on each claim and stops at the first that cannot be read. |
| Store.NodeStore.VotesForClaim | store/vote.go:125-148 | The direct scan of one snapshot. |
| SimPool.InjectionIsClose | simulation/validator.go:87-116 | Every target in [0.15, 1] is met within 0.05 from below in at most 17 iterations, so the cap of 40 never ends the loop (DECISIONS.md:124). |
| SimPool.InjectionIs | simulation/validator.go:87-116 | Into any sound record: left alone from 0.10 below the target upwards, and otherwise brought to at most 0.05 below it. |
| SimPool.TargetIs | simulation/validator.go:46-50 | A target is the mean of two draws, scaled to [0.15, 1). |
| SimPool.StartingScore | simulation/validator.go:97-115 | No validator starts above 0.95, targets above 0.95 start exactly there, and the lowest target starts at 0.15. |
| SimPool.NamesAreDistinct | simulation/validator.go:42 | Validator names are distinct and need no trimming, past 9999 too. |
| SimPool.NameLayout | simulation/round.go:219-221 | Names and claim IDs are a prefix and the number in decimal, with leading zeros exactly up to the width. |
| SimRound.VoteFits | simulation/round.go:147-183 | Which verdicts and confidence ranges each kind of validator can cast. |
| SimRound.TruthByDraw | simulation/round.go:204-216 | Which verdict each interval of the draw makes the truth. |
| SimRound.VoteByDraws | simulation/round.go:147-183 | The verdict and confidence of each kind of validator from its draws; a biased one turns against the truth exactly if the draw is below its bias. |
| SimRound.OneUpdate | simulation/round.go:85-103 | A participant's update succeeds, keeps the score in [0.15, 1] and does not lower it after a correct vote. |
| SimRound.UpdatesSucceed | simulation/round.go:85-103 | All updates of a round succeed and change records only, and no honest validator's score falls. |
| SimRound.RoundSucceeds | simulation/round.go:48-134 | For every stream a round succeeds with full participation and a protocol verdict, and keeps every validator sound. |
| SimRound.RoundRescores | simulation/round.go:84-103 | What a round does to each score: a selected validator's moves by 0.05 above a confidence of 0.7 and by 0.01 else, up exactly for the truth, cut off at 0.15 and 1; every other record is unchanged. |
| SimRound.AverageIs | simulation/round.go:232-247 | The average times the number of votes is the number of SUPPORTED votes plus half the MISLEADING and INDETERMINATE ones; 0.5 without votes. |
| SimRound.OwnVoteDampens | simulation/round.go:223-247 | Including a validator's own vote shrinks its deviation by (n - 1) / n, and changes the average exactly when the vote differs from the mean of the others. |
| SimModel.OppositeVerdict | simulation/round.go:188-199 | SUPPORTED exactly for UNSUPPORTED, and UNSUPPORTED for every other verdict. |
| SimSafety.SafeRoundIsCorrect | simulation/round.go:48-134 | If honest seats remain when all adversaries are selected, and at 0.06 each they carry at least the adversaries' greatest weight, the round's verdict is the ground truth, whoever is selected and whatever is drawn. |
| SimSafety.CappedRoundIsCorrect | simulation/round.go:48-134 | The same against an upper bound on the reputations in the pool. |
| SimSafety.CorrectAsDocumented | simulation/round.go:29-31 | A round's `correct` has its documented meaning exactly unless the verdict and the truth are both INDETERMINATE. |
| SimSafety.SafeCorrectAsDocumented | simulation/round.go:204-216 | In a safe configuration it differs exactly when the round's first draw is at least 0.95. |
| SimSafety.HitsAtMostSeats | simulation/validator.go:122-129 | Distinct picks select each adversary at most once. |
| SimBound.BoundIsEnough | core/consensus/consensus.go:131-144 | 0.06 h >= c honest votes carry the truth against c colluding ones. |
| SimBound.BoundIsNeeded | core/consensus/consensus.go:131-144 | For every h and c with 0.06 h < c, votes within the same ranges let the colluders carry any other verdict. |
| SimQuiet.AverageNearTruth | simulation/round.go:232-247 | Without biased validators the population average is off the truth by at most the colluders' share of the set. |
| SimQuiet.RoundKeepsQuiet | simulation/round.go:105-125 | With fewer than 3 colluders to 10 seats a round keeps every honest window within that share; without colluders nobody is flagged. |
| SimRuns.EveryRunProceeds | simulation/simulation.go:44-51 | For every valid configuration, non-blank domain and stream, every number of rounds succeeds with a sound pool and a balanced report. |
| SimRuns.RunSucceedsExactly | simulation/simulation.go:20-69 | A run succeeds exactly for a valid configuration with a non-blank domain; then the verdict counts sum to TotalRounds, INDETERMINATE's equals IndeterminateRounds, participation is 1 and every rate is in [0, 1]. SimReport.ReportDescribes gives their values. |
| SimRuns.FailsExactly | simulation/config.go:86-122 | Which configurations are refused, condition by condition, and that a valid one with a domain of blanks fails in the first reputation update. |
| SimReport.ReportDescribes | simulation/report.go:65-115 | The report of every successful run: each count is the number of rounds it names; accuracy times decided rounds is the correct ones, and 0 if none is decided; the rates times the rounds are the INDETERMINATE rounds and the rounds that flag somebody; convergence times the pool size is the sum of the final scores. |
| SimReport.FinaliseIs | simulation/report.go:87-115 | What finishing does to any report, field by field; nothing without a round. |
| SimReport.EventsAreFlags | simulation/round.go:105-125 | The events of a round are its selected validators that are flagged after it, although each is asked right after its own record. |
| SimRuns.HonestScoresNeverFall | simulation/round.go:84-103 | In every run, whoever colludes, no honest validator's score falls between two points of the run. |
| SimRuns.SafeEveryRound | simulation/simulation.go:44-51 | In a safe configuration every round of every run ends with its ground truth. |
| SimRuns.SafeRunIsAccurate | simulation/report.go:65-100 | Then CorrectRounds + IndeterminateRounds = TotalRounds, and accuracy is 1 once a round is decided. |
| SimRuns.CollusionRun | simulation/simulation.go:20-69 | With c colluders, no biased validators, k > c and 0.06 (k - c) >= c: every run is accurate, at most c validators are flagged at its end, and no honest validator is at the threshold after any round. |
| SimRuns.HonestRun | simulation/simulation.go:20-69 | Without colluders and bias: the run is accurate and nobody is ever flagged. |
| SimRuns.HonestCoefficientsStayZero | simulation/round.go:105-125 | In such a run every coefficient is 0 after every round. |
| SimRuns.NoScoreFallsInHonestRun | simulation/round.go:84-103 | And no validator's score falls between any two points of it. |
| SimFirstRound.FirstRoundExactly | simulation/round.go:48-134 | For every valid configuration, colluders and biased validators included: the first round is right for every stream if and only if it is safe against reputations of 0.95. |
| SimFirstRound.FirstRoundUnsafe | simulation/round.go:48-134 | Otherwise a lawful stream is computed that builds the pool and plays a first round with a wrong verdict. |
| SimSecondRound.EveryRoundExactly | simulation/simulation.go:44-51 | Every round ends with its ground truth, for every stream and however many rounds are played, if and only if the configuration is safe against starting reputations, and stays safe once adversaries have risen to 1 in a round that raised the honest validators it selected; over the configured rounds, the first half alone if there is one round. |
| SimSecondRound.SecondRoundUnsafe | simulation/simulation.go:44-51 | If only the first round is safe, a lawful stream is computed whose second round ends with a wrong verdict. |
| SimSecondRound.SafeIsAlwaysSafe | simulation/simulation.go:44-51 | The simple bound against reputations of 1 implies the exact condition. |
| SimAllRounds.RaisedForever | simulation/round.go:84-103 | The honest validators of the first round are at 0.16 or more after every later round of every run. |
| SimAllRounds.SelectionsOverlap | simulation/validator.go:122-129 | Two selections share at least 2k - a - n honest validators, for sets of k from a pool of n with a adversaries. |
| SimWindows.RoundHolds | simulation/round.go:105-125 | A round adds one observation, of the claim, the own verdict and the average of the votes, to the window of each validator it selects and leaves every other window alone. |
| SimWindows.RoundDeviation | simulation/round.go:232-247 | Without biased validators, that observation deviates by exactly the gap between lie and truth, times the share of the other kind among the selected. |
| SimWindows.SelectionCounts | simulation/validator.go:122-129 | How many colluders a selection can hold beside a colluder or an honest validator. |
| SimWindows.WindowShort | simulation/round.go:105-125 | After n rounds of any run a window holds at most n observations, each with a deviation that some possible round gives. |
| SimFlags.NeverFlaggedExactly | simulation/round.go:120-124 | Without biased validators: no colluder, or no honest validator, is ever flagged for any stream if and only if there are fewer than five rounds or no possible round gives one of them a deviation of 0.3. |
| SimFlags.ReportCountsLast | simulation/simulation.go:54-66 | The report counts the validators flagged after the last round. |
| SimFlags.CountsIfNoneLost | simulation/report.go:42-44 | That is the number flagged at least once exactly if nobody loses a flag before the end. |
| SimFlags.ShortRunsCountEveryFlag | simulation/report.go:42-44 | In every run of at most five rounds it is, biased validators included. |
| SimFlags.CountsEveryFlagExactly | simulation/report.go:42-44 | Without biased validators, it is so for every stream if and only if there are at most five rounds, or six and no five possible rounds deviate by at least 1.5 and less than 1.8 in all, or nobody can be flagged at all. |
| SimFlags.ReachLoses | simulation/simulation.go:54-66 | Otherwise there is a lawful stream whose report misses a validator that was flagged after round five. |
| SimScript.ScriptWindow | simulation/round.go:48-134 | For every list of possible rounds there is a stream that plays them, with the deviations they say. |
| SimFlips.LongRunsExactly | simulation/report.go:42-44 | In runs of seven or more rounds, with biased validators that sometimes flip: the final count is the number flagged at least once for every stream if and only if there is no biased validator, and no colluder or honest validator can be flagged. |
| SimFlips.FlipperLoses | simulation/round.go:156-167 | A stream in which a biased validator flips alone until it is flagged, and then no more, so that the report misses it. |
| Simulation.InjectReputation | simulation/validator.go:87-116 | The bounded loop computes the injection function. |
| Simulation.BuildValidator | simulation/validator.go:42-70 | The validator at one position, from its two draws; the record constructor cannot fail here. |
| Simulation.BuildValidatorPool | simulation/validator.go:35-76 | Distinct fresh validators with two draws each, colluders first and biased ones next; the error path is dead. |
| Simulation.SelectValidators | simulation/validator.go:122-129 | The pool's own objects at the first positions of the next permutation. |
| Simulation.CastVote | simulation/round.go:147-183 | The vote and the number of draws used. |
| Simulation.ComputePopulationAverage | simulation/round.go:232-247 | The loop computes the mean verdict score, 0.5 without votes. |
| Simulation.UpdateReputations | simulation/round.go:84-103 | In-place updates of the selected validators equal the update of the pool as a value, errors included. |
| Simulation.RecordObservations | simulation/round.go:105-125 | Recording into the mutable tracker equals the fold over values, with the flags counted after each record. |
| Simulation.PlayRound | simulation/round.go:48-134 | The imperative round refines one step of the state machine. |
| Simulation.PlayRounds | simulation/simulation.go:44-51 | The round loop refines that many steps. |
| Simulation.RunReport.Accumulate | simulation/report.go:65-84 | The new report for every round result. |
| Simulation.RunReport.Finalise | simulation/report.go:87-115 | The derived rates and the final count of flagged windows, as SimReport.FinaliseIs states them. |
| Simulation.Run | simulation/simulation.go:20-69 | The whole program refines the state machine, succeeds exactly as stated above, and its report describes the rounds played and the final pool. |
| Scenarios.ScenariosAreValid | simulation/config.go:86-156 | A standard scenario with its rounds replaced passes validation exactly for at least one round. |
| Scenarios.ScenarioSeats | simulation/config.go:124-156 | What the four scenarios set up: a hundred validators, sets of eleven, and 0, 15 or 30 colluders for SUPPORTED or 40 biased validators. |
| Scenarios.OnlyHonestNetworkIsSafe | simulation/config.go:124-156 | Of the four standard scenarios only the honest network is safe, against reputations of 1 or of 0.95. |
| Scenarios.OnlyHonestNetworkIsRight | simulation/config.go:124-156 | Only there is the first round right for every stream; each of the others has a stream with a wrong one. |
| Scenarios.OnlyHonestNetworkCountsFlags | simulation/config.go:124-156 | In runs of seven or more rounds, only the honest network's report counts everybody flagged at least once for every stream; each of the others has a stream whose report misses somebody. |
| Scenarios.HonestNetworkRun | simulation/config.go:135-138 | For every stream and number of rounds the honest scenario has no wrong round and flags nobody. |
| Scenarios.RunScenarios | simulation/simulation.go:74-94 | Succeeds exactly for at least one round, with the consistent report of each scenario in order. |

## Left out

- BadgerDB itself: files, garbage collection, opening and closing, its key-size and transaction-size limits, its internal errors and conflict retries. A transaction is one atomic step.
- The JSON codec: values are stored decoded, and a value of the wrong kind stands for bytes that do not decode.
- Nil-pointer arguments, except the nil proof.
- The SHA-256 computation and the byte layout of `HashVote`.
- Floating point: rounding, overflow and NaN. All arithmetic is on exact reals.
- Text beyond ASCII: lower-casing touches A to Z only, and white space is the list of code points that `unicode.IsSpace` accepts.
- The random generator: its distributions and seed. Draws and permutations are independent arbitrary sequences, in place of one generator state.
- Aliasing of Go slices: byte contents are arrays only in the hash tree, where roots and proofs are proved to be fresh copies; elsewhere slices are sequences.
- `core/claim` (field checks, URL requests, life cycle), `chain`, the Solidity contracts, and the packages that hold documentation only.
- `Report.Summary`, the scenario and configuration fields of the report, and the wording of errors.
- Machine integers other than `uint64` epochs, registration epochs and validation counters are unbounded.
- Store.NodeStore.VotesForClaim: collects the keys first and decodes them afterwards, within one snapshot; the source decodes inside the iterator loop.
- SimRuns.CollusionRun: asks for the simple bound against reputations of 1; SimSecondRound.EveryRoundExactly has the weakest condition for the verdicts.
- SimFlags.CountsEveryFlagExactly: for configurations without biased validators; with them SimFlags.ShortRunsCountEveryFlag covers up to five rounds and SimFlips.LongRunsExactly seven and more, except where biased validators always flip or colluders fill the pool.
- SimFlags.NeverFlaggedExactly: for configurations without biased validators.
