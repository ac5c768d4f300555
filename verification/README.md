# Tenderdash core: a verified model

This project models the parts of Tenderdash whose correctness is hardest to see from the code and proves what they
promise. It is written in Dafny 4.11; `dafny verify dfyconfig.toml` checks all of it.

**From votes to commits.** A vote set keeps four views of the same votes: the canonical list with its bit array and
sum, one bucket per block, vote-extension groups inside each bucket, and the majorities peers claim. It decides on a
block tentatively and takes the decision back when threshold recovery fails. `VoteSetModel` gives every operation as a
function on values, `VoteSetInvariant` the invariant, `VoteSetRuns`, `VoteSetDecisions` and `VoteSetAgreement` the
theorems over every run, `HeaderClaim` what its header comment claims, and `VoteSet.dfy` the objects with their fields
and loops, each method proved equal to its function. `ThresholdRecovery` says exactly when recovery succeeds,
`CommitPipeline` that the commit of every decision is accepted, `CommitContents` what it carries, `CommitLiveness`
that enough matching precommits get there, and `NilVotes` what precommits for nil with extensions do to a decision.
`VoteOutcomes` says what the answers of a vote set mean, and `SignBinding` that a signature stands for one vote.
`Signing`, `SigningLoops`, `Recovery`, `Commits`, `Evidence`, `Validators` and `BlockIDs` are what the pipeline stands
on.

**Around it.** The file-backed signer and its crashes (`FilePV`) and what it is for (`SignerService`), change sets of
a validator set (`ValidatorUpdates`, `ChangeSets`), block parts with their Merkle tree (`Merkle`, `MerkleIterative`,
`PartSets`, `PartSetObjects`), the encrypted signer connection (`SecretConnections`, `SecretConnectionObjects`), what
it delivers and lets nobody else deliver (`SecretDelivery`, `SecretAuthenticity`), the ABCI socket pipeline and what
its callers get (`SocketPipeline`, `SocketReplies`, `SocketClient`), transaction records (`TxRecords`), the light
client's providers (`LightProviders`) and proposal timeliness (`Timeliness`).

**What is assumed.** Checksums, BLS signing, verification and recovery, sign bytes and authenticated encryption are
function values passed as parameters; nothing is assumed of them except where a `requires` says so:

- `ThresholdKeyOk`: the threshold key is set, and a single validator's key is that key. With more validators nothing
  else is assumed of the key, because the vote set verifies what it recovered.
- `ThresholdScheme` (`Recoverable` for the cases that need it): threshold-many shares of different validators over one
  digest recover a signature over that digest under the threshold key. That recovery then collects the right shares and
  succeeds is proved, not assumed; `SchemeExists` and `CommitReachable` show that the assumption can be met.
- `ProperCall` and `ValidatedCall`: block IDs in votes are nil or complete; `ValidatedCall` adds 32-byte proTxHashes and
  no extensions on votes for nil. `Vote.ValidateBasic` demands all of it.
- `Honest`: evidence handed to the vote set was produced by a verification; no other package can build it.
- `WellFormed`: every voting power is 100 and proTxHashes are distinct. `UpdateWithChangeSet` establishes this.
- `NoCollision`: the checksum does not collide on the finitely many strings hashed to build the tree and check the proof.
- `Sound`: a part whose proof computes the root claims a total that leads to the leaf at its index; nothing is asked of
  other parts. `AcceptedIff` shows that this is the exact condition.
- `Works`: opening undoes sealing (`TransparentWorks` shows that it can).
- `TellsBallots` and `TellsExts`: nothing hashed for two votes or extensions collides, and sign bytes tell them apart
  (`BindingMet` shows that it can be).
- `Trusts`: what the signer signs verifies under the key (`PlainTrusted`).
- `Unforged`: a frame that opens is the sender's frame with that number (`VouchingUnforged`).
- `Obliging`: the application answers whatever it is asked.
- `Contested`: for whatever is signed something else could have been asked for (`WillingContested` shows that it can).

Go's `nil` byte slice is `[]`. A panic of the source is an outcome of the model, so that it can be proved unreachable.

**Where the code says less than its comments.**

- The header comment of `VoteSet` claims that a canonical vote is always filed under its block. A conflicting vote for
  the majority block becomes canonical, but is filed only if a peer claimed that block (`ReplacedVote`). After any run
  the claim holds if and only if no such late conflict was added (`ClaimHoldsIff`); some run breaks it (`ClaimBroken`).
- The signer is to prevent double signing. A save that fails leaves memory ahead of the file, and asking again then
  releases a signature that is not in the file (`SavesIff`). Where rival requests can turn up, a run survives a crash at
  any time if and only if nothing of the kind was released (`SurvivesIffSaved`).
- A vote that is asked for again under another quorum gets the signature made under the first one, because only sign
  bytes are compared (`AskedUnderAnother`). Under one quorum every released vote verifies (`ReleasedVoteVerifies`).
- `signProposal` says that it reuses the last signature when asked again, but hands out the stored sign bytes: the same
  answer if and only if signing yields those bytes (`ResignProposal`), and `ResignDiffers` shows when it does not.
- `AddPart` does not compare a proof's total with its own (`TotalNotChecked`), so a stored part is the right one exactly
  when the two totals lead to the same leaf (`AcceptedIff`).
- `NewPartSetFromData` counts parts in 32-bit arithmetic and drops the end of the data unless length and part size
  together fit (`NumPartsExact`).
- A `findNewPrimary` that was to remove the primary can fail after it has replaced it, with the new primary still among
  the witnesses: if and only if the last witness to answer was the only one that did not answer badly
  (`FoundApartIff`, `StrandedIff`), as with a lone witness (`LoneWitnessStranded`).
- `BlockID.Key` is injective on block IDs that are nil or name a block (`KeyInjective`), but every one with a hash shares
  its key with another that `BlockID.ValidateBasic` lets through (`KeyCollision`), so a peer can claim it under that
  other name (`ClaimCollides`).
- `VoteSet` itself lets in precommits for nil that carry extensions (`LadenVoteRecorded`). Such votes never decide on nil
  (`NilNeverDecided`), even when nil is ready (`ReadyNotDecided`); `Vote.ValidateBasic` keeps them out.

## Model

| member | source | states |
|---|---|---|
| BlockIDs.MarshalInjective | types/block.go:1149-1159 | the protobuf bytes inside a block key determine the part-set header |
| BlockIDs.KeyInjective | types/block.go:1149-1159 | among block IDs that are nil or have a hash and a state ID, keys are equal if and only if the IDs are, although the key has no delimiters |
| BlockIDs.KeyCollision | types/block.go:1149-1176 | every block ID with a hash shares its key with a different one that passes ValidateBasic |
| Signing.ProtoRoundTrip | types/vote_extension.go:246-263 | converting vote extensions to protobuf and back is the identity |
| Signing.RecoverablesAll | types/vote_extension.go:281-290 | filtering extensions that are all recoverable changes nothing |
| Signing.SignItemsIff | types/vote_extension.go:546-577 | extensions have something to sign if and only if every raw one is 32 bytes long |
| Signing.SignItemsIgnoreSignatures | types/vote_extension.go:76-96 | sign items do not depend on the signatures the extensions carry |
| Signing.VerifyQuorumMeaning | types/quorum_sign_data.go:61-124 | verification succeeds if and only if the counts agree and every signature is good; a budget can only turn the verdict into budget exhaustion, exactly when it does not cover the checks |
| Signing.VerifyQuorumErrors | types/quorum_sign_data.go:61-124 | the error says which signature is bad, an invalid extension being the first one, or that counts or budget fell short |
| Signing.VerifiedIff | types/vote.go:225-273 | a vote verifies if and only if it names its validator, the key has the right size, only a precommit carries extensions, at most 32 and each signable, and all signatures are the validator's over its own digests |
| Signing.IdentityInjective | types/vote_set.go:567-591 | equal extension identities mean the same number, types and sign hashes of extensions |
| Signing.VerifiedHasIdentity | types/vote_set.go:567-591 | a verified vote always has an identity, so the error after verification is dead |
| SigningLoops.FilterRecoverable | types/vote_extension.go:281-290 | the filter loop keeps exactly the recoverable extensions, in order |
| SigningLoops.MakeSignItems | types/vote_extension.go:76-96 | the loop yields the sign items in order, or the error exactly when an extension has none |
| SigningLoops.Verify | types/quorum_sign_data.go:61-124 | block first, count, budget, then extensions up to the first bad one: the error of the specification, and success only over good signatures |
| SigningLoops.SignedContent | types/vote_verification.go:128-142 | the digests and signatures of a check, block first |
| SigningLoops.EqualByteSlices | types/vote_verification.go:213-223 | equality of lists of byte strings |
| SigningLoops.CopySigns | types/quorum.go:17-28 | each extension of the commit gets the signature at its index; the panic is a count mismatch |
| SignBinding.DigestBinds | types/quorum_sign_data.go:218-345 | as far as nothing hashed collides and sign bytes tell votes apart, equal block digests mean the same chain, quorum, type, height, round and block |
| SignBinding.RequestBinds | types/quorum_sign_data.go:218-230 | equal block digests mean the same height, round and sign bytes, whatever sign bytes leave out |
| SignBinding.OneBallotPerSignature | types/quorum_sign_data.go:283-345 | votes that verify under one key with one block signature are for one type, height, round and block |
| SignBinding.TransplantRefused | types/quorum_sign_data.go:85-92 | a verified vote rewritten to another block is refused for its block signature |
| SignBinding.OneCommitPerSignature | types/validator_set.go:1049-1077 | accepted commits with one block signature are for one block, height and round |
| SignBinding.ExtDigestBinds | types/vote_extension.go:412-440 | equal digests of two extensions of one type mean the same contents and, for raw ones, the same request |
| SignBinding.IdentityBinds | types/vote_set.go:567-591 | votes of a round with equal extension identities carry the same extensions, one by one |
| SignBinding.GroupAgrees | types/vote_set.go:1015-1041 | in every reachable bucket the precommits of one group carry the same extensions, one by one |
| SignBinding.OwnRequestUnbound | types/vote_extension.go:546-562 | a raw extension under a request of the application's own has one digest for all heights and rounds |
| SignBinding.RoundRequestBinds | types/vote_extension.go:563-567 | one without is bound to its height and round |
| SignBinding.BlockIsNoExtension | types/quorum_sign_data.go:228-230 | a block signature never stands for an extension, unless the application chose the request |
| SignBinding.BindingMet | types/quorum_sign_data.go:283-345 | these assumptions can be met for any two blocks with different hashes |
| Validators.TotalWeight | types/validator_set.go:569-571 | size times 100 is the weight of all validators when every power is 100 |
| Validators.RecoveryOfKnown | dash/llmq/llmq.go:22-38 | a quorum type named after members and percentage recovers with the fewest members that make up the percentage, development and test types with exactly half or two thirds; all do without some member |
| Validators.PercentageReached | types/validator_set.go:608-638 | the power of n members is enough exactly when they make up the percentage |
| Validators.RecoveryOfUnknown | types/validator_set.go:632-638 | any other type recovers with the fewest of its validators that are more than two thirds |
| Validators.QuorumRule | types/validator_set.go:585-610 | a configured threshold is the quorum power and leaves the recovery power alone |
| Validators.StrictRule | types/validator_set.go:612-620 | the strict floor is the least power above two thirds of the total, and the threshold is below it exactly when it is not above two thirds |
| Evidence.SameContentSameVerdict | types/vote_verification.go:128-142 | checks over the same digests and signatures under one key agree |
| Evidence.MatchedVoteVerifies | types/vote_verification.go:154-211 | a vote that genuine evidence matches passes a fresh full verification, whatever was written to it since |
| Evidence.FreshEvidenceMatches | types/vote_verification.go:89-117 | fresh evidence matches the vote it was minted for, and what a rewritten vote must still agree in |
| Evidence.RewrittenVote | types/vote_verification.go:154-211 | a rewritten vote that fresh evidence matches verifies and carries the signatures that were checked; rewriting extensions nobody recovers keeps the match |
| Evidence.EvidenceIsSpecific | types/vote_verification.go:154-190 | evidence matches no other vote object, chain, quorum, key or validator than it was minted for |
| Evidence.MatchedCommitVerifies | types/verified_commit.go:148-200 | a commit that a genuine proof matches passes a full verification |
| Evidence.ProofIsSpecific | types/verified_commit.go:148-200 | one proof matches commits of one chain, height, block, quorum, key and block signature only |
| Evidence.VerifyCommitSignatures | types/verified_commit.go:100-133 | succeeds exactly when verification of the commit's present content does, with the same error, and mints a proof that matches it |
| Evidence.VerifyCommitUnlessVerified | types/validator_set.go:975-986 | with any evidence and any later state of the commit object, the verdict and the error are those of a full verification |
| Commits.AcceptedIff | types/validator_set.go:1049-1077 | a commit is accepted if and only if it is for this height, block and quorum, has at most 32 well-formed extensions, and carries the threshold key's signatures over all of it |
| Commits.RefusedBecause | types/validator_set.go:1049-1077 | a refusal before any signature is checked says what is wrong |
| Recovery.CollectedExts | types/signs_recoverer.go:142-190 | the collected extensions come from one contributing voter, or no contributing voter has any |
| ThresholdRecovery.CollectedBlockShares | types/signs_recoverer.go:113-137 | every vote of the block gives its block signature and proTxHash, in order |
| ThresholdRecovery.CollectedExtShares | types/signs_recoverer.go:144-190 | from uniform votes the shares of every extension are collected, each under its voter |
| ThresholdRecovery.SpoiledShares | types/signs_recoverer.go:158-161 | one contributing vote for nil with extensions spoils the collection |
| ThresholdRecovery.VoteShares | types/vote_set.go:289-347 | a recorded vote is made of shares over the block's digest and over the digest of each recoverable extension |
| ThresholdRecovery.BlockRecovers | types/signs_recoverer.go:192-199 | a block at the recovery threshold recovers a block signature under the threshold key |
| ThresholdRecovery.GroupCount | types/vote_set.go:1015-1041 | a group's power counts its voters |
| ThresholdRecovery.ExtRecovers | types/signs_recoverer.go:201-229 | a group at the recovery threshold recovers a signature over each extension under the threshold key |
| ThresholdRecovery.GroupRecovers | types/vote_set.go:486-535 | the shares of such a group are collected and recovered, and what is recovered passes the check |
| ThresholdRecovery.RecoveredIff | types/vote_set.go:472-535 | a block with a group at the threshold recovers and verifies if and only if it is not nil or no vote of the canonical group carries extensions |
| ThresholdRecovery.RunValidated | types/vote.go:353-409 | a vote set that is given validated votes only holds validated votes only |
| ThresholdRecovery.RepresentativeIrrelevant | types/vote_set.go:486-535 | whichever vote of a group represents it, the check of what was recovered has the same result |
| VoteSetInvariant.BucketAddOk | types/vote_set.go:1015-1041 | adding a vote keeps the bucket's bits, sum, groups and powers consistent |
| VoteSetInvariant.RecordCanonicalOk | types/vote_set.go:371-388 | recording keeps the canonical bits, votes and sum consistent |
| VoteSetInvariant.FileViews | types/vote_set.go:390-409 | filing a kept vote restores coverage, tracking and the majority view |
| VoteSetInvariant.FinalizeValid | types/vote_set.go:411-467 | deciding, or taking the decision back, keeps every view |
| VoteSetInvariant.AddVerifiedValid | types/vote_set.go:362-468 | adding a verified vote keeps the whole invariant |
| VoteSetInvariant.AddVoteCases | types/vote_set.go:235-347 | a call that is not admitted leaves the set alone as duplicate or rejected; one that is goes to the add path with the vote's own group and power |
| VoteSetInvariant.AddVoteValid | types/vote_set.go:235-347 | every vote call keeps the whole invariant |
| VoteSetInvariant.SetPeerMaj23Valid | types/vote_set.go:598-643 | every peer claim keeps the whole invariant |
| VoteSetRuns.Run | types/vote_set.go:37-90 | every state reachable by vote calls and peer claims satisfies the invariant over all four views |
| VoteSetRuns.CheckIsVerification | types/vote_set.go:289-328 | with evidence or a budget the call does what a plain AddVote does, or leaves the set alone and says that evidence or budget fell short |
| VoteSetRuns.AddVoteDeadBranches | types/vote_set.go:318-376 | the duplicate panic, the not-added panic and the identity error cannot happen |
| VoteSetRuns.LengthPanicCause | types/signs_recoverer.go:100-111 | the length panic needs a block without a hash and a voter with recoverable extensions |
| VoteSetRuns.NoLengthPanic | types/signs_recoverer.go:100-111 | on nil or complete block IDs the length panic is unreachable |
| VoteSetRuns.NoCallPanics | types/vote_set.go:235-468 | no vote call of any run panics, whatever validators sign and peers claim |
| VoteSetRuns.MajorityIsFinal | types/vote_set.go:411-467 | once set, the majority and its recovered signatures survive every later call |
| VoteSetRuns.TrackedBlocksBounded | types/vote_set.go:27-35 | tracked blocks are at most canonical voters plus claims, hence validators plus 4096 |
| VoteSetRuns.ClaimCollides | types/vote_set.go:598-643 | the bucket of any block with a hash can be marked by a claim that names another block ID |
| VoteOutcomes.AddedIff | types/vote_set.go:235-347 | a fully checked vote is added if and only if it is good and new and its validator had none, and is a conflict if and only if the validator had one, added exactly when a peer claimed the block |
| VoteOutcomes.ShortcutsWork | types/vote_set.go:289-328 | a good vote with fresh evidence, or with a budget that covers its checks, is treated as after a full check |
| VoteOutcomes.DuplicateOf | types/vote_set.go:279-287 | a duplicate has the block signature of a known vote for the block; another signature is an error |
| VoteOutcomes.RejectedBecause | types/vote_set.go:235-328 | every refusal says what is wrong with the vote and changes nothing |
| VoteOutcomes.ClaimOutcomes | types/vote_set.go:598-643 | a claim is accepted if and only if it is for this height and repeats the peer's claim or is its first and there is room; the block is then marked |
| VoteOutcomes.ClaimIsFinal | types/vote_set.go:611-618 | over every run a peer's claim and the mark on its block stay |
| VoteOutcomes.NoRetry | types/vote_set.go:411-430 | past quorum and recovery power a further vote of the group is no occasion for another attempt to decide |
| VoteOutcomes.RunNoStray | types/vote_set.go:421-467 | over every run there are no recovered signatures without a decision, nor for prevotes |
| VoteSetDecisions.CanonicalGroupExact | types/vote_set.go:543-565 | a canonical group exists if and only if some group is at the recovery threshold, and is the least such identity |
| VoteSetDecisions.FindCanonicalGroup | types/vote_set.go:543-565 | ranging over the map in any order finds that group |
| VoteSetDecisions.GroupsPartition | types/vote_set.go:1015-1041 | in every reachable bucket the groups cover the voters, are pairwise disjoint, and their powers add up to the bucket's sum |
| VoteSetDecisions.OneGroupAboveHalf | types/vote_set.go:543-565 | above half of the total power at most one group qualifies |
| VoteSetAgreement.ReadyRecovers | types/vote_set.go:472-535 | a block of validated votes at quorum with a group at the threshold recovers, also with one validator |
| VoteSetAgreement.MajorityIffReady | types/vote_set.go:411-467 | over every run a majority is set if and only if some bucket is at quorum and, for precommits, has a group at the recovery threshold; the majority block is such a bucket: no attempt is missed and none fails |
| VoteSetAgreement.DecisionsOverlap | types/validator_set.go:585-620 | two vote sets that decide on different blocks share equivocators with power at least twice the quorum less the total, more than a third unless the threshold is below the strict floor |
| VoteSetAgreement.OrderIndependent | types/vote_set.go:362-468 | with one valid prevote or validated precommit per validator and a quorum above half, votes, sums, buckets and decision do not depend on order or repetition |
| HeaderClaim.ReplacedVote | types/vote_set.go:371-409 | a conflicting vote for the majority block becomes canonical, and is filed if and only if a peer claimed the block |
| HeaderClaim.ClaimKeptIff | types/vote_set.go:59-60 | where every canonical vote is filed under its block, that survives a verified vote if and only if the vote is not a conflicting one for a majority block that no peer claimed |
| HeaderClaim.BrokenStays | types/vote_set.go:371-409 | a canonical vote that is not filed under its block stays so whatever is called |
| HeaderClaim.ClaimHoldsIff | types/vote_set.go:59-60 | after any run every canonical vote is filed under its block if and only if no call added a conflicting vote for a majority block that no peer had claimed |
| HeaderClaim.ClaimBroken | types/vote_set.go:59-60 | for any two blocks there is a run of valid votes after which a canonical vote is not filed under its block |
| CommitPipeline.LoneRecovered | types/vote_set.go:476-485 | with one validator the vote's own signatures verify as threshold signatures |
| CommitPipeline.SeveralRecovered | types/vote_set.go:486-535 | recovered signatures that passed the check verify over the extensions that go into the commit |
| CommitPipeline.SignedCommitVerifies | types/quorum.go:17-28 | a commit made from such signatures is built without panic, keeps the extensions, and verifies |
| CommitPipeline.CommitAccepted | types/vote_set.go:947-987 | every commit made from any reachable precommit vote set is accepted by verifyCommit for the same chain, height and majority block |
| CommitPipeline.CommitMadeIff | types/vote_set.go:947-971 | after any run a commit can be made if and only if the votes are precommits with a majority; the two panics otherwise are the right ones |
| CommitContents.RecoveredCarried | types/vote_set.go:472-535 | recovery yields, one by one, the recoverable extensions of one of the block's votes |
| CommitContents.CommitCarries | types/vote_set.go:947-987 | every commit made from a reachable vote set carries, one by one, the recoverable extensions of a precommit for its block |
| CommitPipeline.LoneVoteCommits | types/vote_set.go:476-485 | a lone validator whose power is a quorum commits with its first admissible vote |
| CommitLiveness.MatchingVotesCommit | types/vote_set.go:235-535 | threshold-many precommits for one block with equal extensions, in any order, decide on it, and the commit made from them is accepted |
| CommitLiveness.MatchingDecideIff | types/vote_set.go:411-467 | matching votes, in any order, decide on their block if and only if they carry the quorum power and, for the precommits of several validators, the recovery power |
| CommitLiveness.PercentageDecides | types/validator_set.go:608-638 | in a full quorum of a named type the first n precommits decide if and only if they make up the percentage |
| CommitLiveness.HundredSixtySeven | dash/llmq/llmq.go:29-29 | 67 of 100 precommits decide and 66 do not; a lower configured threshold does not change that, a higher one does |
| CommitLiveness.SchemeExists | types/signs_recoverer.go:192-229 | for any validator set with a threshold key there are primitives that form a threshold scheme |
| CommitLiveness.CommitReachable | types/vote_set.go:947-987 | every quorum in working order has keys and votes that lead to an accepted commit for any proper block |
| NilVotes.LadenFails | types/signs_recoverer.go:142-161 | a block nil whose votes all carry extensions does not recover, whichever group is canonical |
| NilVotes.NilNeverDecided | types/vote_set.go:411-467 | among several validators no run in which every precommit for nil carries extensions decides on nil, whatever else is voted for |
| NilVotes.LadenVoteRecorded | types/vote_set.go:289-347 | the vote set admits a precommit for nil with an extension that ValidateBasic refuses |
| NilVotes.ReadyNotDecided | types/vote_set.go:472-535 | every quorum in working order has a run after which nil is at quorum with a group at the recovery threshold, and nothing is decided |
| VoteSetObjects.SignsRecoverer.Init | types/signs_recoverer.go:113-190 | the loop over the votes collects exactly the shares of the specification, or fails exactly when it does |
| VoteSetObjects.SignsRecoverer.Recover | types/signs_recoverer.go:77-90 | the recovered signatures are those of the specification |
| VoteSetObjects.BlockVotes.AddVerifiedVote | types/vote_set.go:1015-1041 | the bucket object changes as the specification says and reports when a group reaches the threshold |
| VoteSetObjects.VoteSet.RecoverThresholdSignsAndVerify | types/vote_set.go:472-535 | recovery, its checks and its panic agree with the specification |
| VoteSetObjects.VoteSet.TryFinalize | types/vote_set.go:421-465 | the tentative decision is published or rolled back as the specification says |
| VoteSetObjects.VoteSet.AddVerifiedVote | types/vote_set.go:362-468 | the object after the call is the specification's state, with the same outcome |
| VoteSetObjects.VoteSet.AddVote | types/vote_set.go:190-347 | the locked call has the specification's outcome and, unless that is a panic, leaves the specification's state with the invariant kept |
| VoteSetObjects.VoteSet.ClaimBucket | types/vote_set.go:628-640 | the bucket of a claimed block is marked, or started with the mark, and no other changes |
| VoteSetObjects.VoteSet.SetPeerMaj23 | types/vote_set.go:598-643 | a claim changes the object as the specification says and keeps the invariant |
| VoteSetObjects.VoteSet.MakeCommit | types/vote_set.go:947-987 | the commit, or the panic, is that of the specification |
| FilePVs.CheckHRSOrder | privval/file.go:144-177 | the nested comparisons are the lexicographic order on height, round and step |
| FilePVs.ServeShape | privval/file.go:662-821 | a served request moves memory strictly ahead or leaves it, the file follows or lags, the guard never panics, and what is released is in memory, and in the file unless it was asked for again while the file lagged |
| FilePVs.SavesIff | privval/file.go:715-723 | a request releases what is not in the file if and only if it is answered at the triple in memory while the file lags behind |
| FilePVs.NeverDoubleSigns | privval/file.go:662-821 | over every run with crashes and failed saves anywhere, in which nothing is released that is not in the file, released triples never go back and one triple has one sign bytes |
| FilePVs.RestartsSuffice | privval/file.go:807-821 | a restart after every failed save is enough for that |
| FilePVs.UnsavedReleaseBreaks | privval/file.go:710-723 | a release that is not in the file, a crash and a rival request make a double signature |
| FilePVs.SurvivesIffSaved | privval/file.go:662-821 | where rival requests can turn up, a run survives a crash at any time followed by any request if and only if nothing was released that was not in the file |
| FilePVs.WillingContested | privval/file.go:662-804 | there is a signer under which rival requests can always turn up |
| FilePVs.GuardNeverPanics | privval/file.go:164-170 | in every run no request finds sign bytes without a signature |
| FilePVs.ResignVote | privval/file.go:710-723 | asking again for a signed vote returns the same signatures and changes nothing |
| FilePVs.ResignProposal | privval/file.go:775-781 | asking again for a signed proposal returns the sign bytes, which is the same answer if and only if signing the digest yields them |
| FilePVs.ResignDiffers | privval/file.go:775-781 | with one signature for everything, every proposal with other sign bytes gets two different answers |
| FilePVs.ReleasedExtensions | privval/file.go:823-832 | a released vote has one signature per extension, and the index panic happens exactly when an extension is not recoverable |
| FilePVs.KeyNeeded | privval/file.go:688-691 | without the quorum's key no vote is released, and a proposal only when asked for again |
| FilePVs.RetrySafeIffSaved | privval/file.go:807-821 | for any two rival votes: retrying, crashing and meeting the rival is safe if and only if the first save reached the disk |
| FilePVs.RivalsExist | privval/file.go:662-747 | any two blocks with different hashes give rival votes for a fresh validator |
| SignerService.RoundSigned | privval/file.go:662-804 | from any state before the round a proposal, a prevote and a precommit of the round are released in that order, and then nothing earlier of the round is |
| SignerService.ReleasedVoteVerifies | privval/file.go:662-747 | in every run under one chain and quorum, with crashes and failed saves anywhere, a released vote with its signatures filled in verifies if and only if it has at most 32 extensions |
| SignerService.ReleasedVoteRecorded | types/vote_set.go:289-328 | so the vote set of its height, round and type records it |
| SignerService.AskedUnderAnother | privval/file.go:715-723 | asked again under another quorum the signer returns the signature made under the first, which verifies if and only if that signature happens to |
| SignerService.PlainTrusted | privval/file.go:689-747 | the assumptions on keys and checks can be met |
| FilePVObjects.FilePV.SaveSigned | privval/file.go:807-821 | memory is overwritten and the file follows if the save succeeds |
| FilePVObjects.FilePV.SignVote | privval/file.go:662-747 | state, file and reply are those of the specification |
| FilePVObjects.FilePV.SignProposal | privval/file.go:752-804 | state, file and reply are those of the specification |
| ValidatorUpdates.SortedUnique | types/validator_set.go:672-677 | a strictly sorted list is determined by its map |
| ValidatorUpdates.MergeSorted | types/validator_set.go:775-810 | the merge of strictly sorted lists is strictly sorted |
| ValidatorUpdates.MergeOverrides | types/validator_set.go:775-810 | the merge is the old map overridden by the updates |
| ValidatorUpdates.MergeLength | types/validator_set.go:761-810 | the merge grows by the number of new validators |
| ValidatorUpdates.RemoveRemoves | types/validator_set.go:833-857 | removal is the map without the removed hashes |
| ValidatorUpdates.RemoveLength | types/validator_set.go:833-857 | removal shrinks the list by exactly the deletions |
| ValidatorUpdates.CoveredFits | types/validator_set.go:824-826 | deletions that are all present are no more than the validators, so the panic is unreachable |
| ValidatorUpdates.ProcessChanges | types/validator_set.go:672-706 | accepts if and only if hashes are distinct and non-empty and powers in range; updates and removals come sorted, complete and counted |
| ValidatorUpdates.VerifyUpdates | types/validator_set.go:726-759 | the running total in order of deltas passes the limit exactly when the final total does; otherwise it is the total before removals |
| ValidatorUpdates.NumNewValidators | types/validator_set.go:761-769 | counts the updates that are not in the set |
| ValidatorUpdates.VerifyRemovals | types/validator_set.go:814-828 | the removed power, if and only if every removal is in the set |
| ValidatorUpdates.AcceptedIff | types/validator_set.go:863-915 | a change set is accepted if and only if key and quorum hash come with it, hashes are distinct and non-empty, it removes members only and only if allowed, everybody else gets the one voting power, somebody is left and an enlarged set stays below the limit |
| ValidatorUpdates.RefusedBecause | types/validator_set.go:863-915 | a refusal says what is wrong with the changes |
| ValidatorUpdates.PowerStaysBounded | types/validator_set.go:726-759 | no accepted change set takes the total power over its limit |
| ChangeSets.UpdatedUnique | types/validator_set.go:863-915 | a change set leads to at most one list |
| ChangeSets.MergeThenRemove | types/validator_set.go:863-915 | merge, then remove, is the old map overridden by updates and without removals |
| ChangeSets.ValidatorSetObject.MergeLists | types/validator_set.go:775-810 | the in-place merge loop computes the merge, with every index in bounds |
| ChangeSets.ValidatorSetObject.RemoveFrom | types/validator_set.go:833-857 | the in-place removal loop computes the removal, with every index in bounds |
| ChangeSets.ValidatorSetObject.ApplyUpdates | types/validator_set.go:775-810 | the list becomes the merge of its sorted self with the updates |
| ChangeSets.ValidatorSetObject.ApplyRemovals | types/validator_set.go:833-857 | the list becomes the removal |
| ChangeSets.ValidatorSetObject.UpdateWithChangeSet | types/validator_set.go:863-915 | which error, if any, by conditions on the unsorted changes; on success the non-empty strictly sorted list of the updated map, with its total power; otherwise nothing changes; well-formedness is kept |
| Merkle.SplitPointBounds | crypto/merkle/tree.go:101-112 | the split point is a power of two, below the length and at least half of it |
| Merkle.SplitPointUnique | crypto/merkle/tree.go:101-112 | and it is the only such number |
| Merkle.RootOfFew | crypto/merkle/tree.go:11-40 | the roots over up to three items are those of section 2.1 of RFC 6962, written out |
| Merkle.GeneratedProofVerifies | crypto/merkle/proof.go:35-71 | every generated proof verifies |
| Merkle.Binding | crypto/merkle/proof.go:154-185 | a proof that computes the root, whatever total and index it claims, carries the item at the leaf its path leads to |
| Merkle.VerifiedLeaf | crypto/merkle/proof.go:52-71 | with the tree's total, a verified proof carries the item at its index |
| Merkle.OtherTotal | crypto/merkle/proof.go:154-185 | with another total it need not: three items, and a proof for a tree of two |
| MerkleIterative.PairKeepsTree | crypto/merkle/tree.go:80-95 | joining neighbours one level up keeps the recursive root |
| MerkleIterative.PairInPlace | crypto/merkle/tree.go:83-94 | the in-place pass computes that level |
| MerkleIterative.IterativeRoot | crypto/merkle/tree.go:68-98 | the iterative root is the recursive root |
| PartSets.FlattenChunks | types/part_set.go:181-195 | the chunks together are the data |
| PartSets.NumChunks | types/part_set.go:183-183 | the computed number of parts is the number of chunks |
| PartSets.NumPartsExact | types/part_set.go:181-195 | the 32-bit count of parts never exceeds the chunks, no slice index overflows, and no chunk is lost if and only if length and part size together fit 32 bits |
| PartSets.FromItemsValid | types/part_set.go:181-209 | a set built from data is complete and its counts agree with its parts |
| PartSets.AddPartValid | types/part_set.go:281-315 | count, bit array and byte size keep agreeing with the stored parts, each of them proved |
| PartSets.RefusedBecause | types/part_set.go:281-303 | each error says what is wrong with the part and changes nothing |
| PartSets.TakenCounts | types/part_set.go:281-315 | the count grows with every part that is said to be added, and with no other |
| PartSets.TakenOnce | types/part_set.go:281-303 | a part that was added is from then on answered as known, whatever else is offered |
| PartSets.GatheredPart | types/part_set.go:281-315 | every stored part is the original at its index, if accepted proofs claim totals that lead there; nothing is asked of rejected parts |
| PartSets.OfferedSlotFilled | types/part_set.go:281-315 | an original part that is offered fills its slot, whatever else is offered |
| PartSets.SplitGather | types/part_set.go:181-325 | split, then gather in any order among duplicates and any rejected parts: complete once all originals were offered, and complete means the data is back |
| PartSets.TotalNotChecked | types/part_set.go:281-315 | without a check of the proof's total the last of three parts is stored as the second |
| PartSets.AcceptedIff | types/part_set.go:281-315 | over distinct items an accepted part is the original at its index if and only if the total its proof claims leads to that leaf |
| PartSetObjects.Slices | types/part_set.go:187-195 | the slicing loop yields the first chunks, as many as asked for |
| PartSetObjects.PartSet.FromData | types/part_set.go:181-209 | builds the set of as many chunks as 32-bit arithmetic counts, which is the full set when length and part size together fit |
| PartSetObjects.PartSet.FromHeader | types/part_set.go:212-221 | builds the empty set of a header |
| PartSetObjects.PartSet.AddPart | types/part_set.go:281-315 | state and result are those of the specification, and validity is kept |
| PartSetObjects.PartSet.GetReader | types/part_set.go:327-346 | a complete set's reader has all the bytes ahead of it |
| PartSetObjects.PartSetReader.Read | types/part_set.go:348-367 | returns as much as is left up to the buffer, end of file exactly when that is less; an empty buffer gets it when the current part is used up |
| PartSetObjects.ReadAll | internal/consensus/state_add_prop_block.go:168-168 | reading with any non-empty buffers to end of file returns everything in order |
| PartSetObjects.SendAndReceive | internal/consensus/state_add_prop_block.go:142-168 | data that is split, offered in any order among duplicates and rejected parts and read back at end of file is the data; all originals offered means that it is read |
| SecretConnections.NumberRoundTrip | privval/secret_connection.go:229-229 | the little-endian length and counter decode to what was encoded |
| SecretConnections.TransparentWorks | privval/secret_connection.go:232-246 | the assumption on encryption can be met |
| SecretConnections.NonceInjective | privval/secret_connection.go:481-491 | different counters give different nonces |
| SecretConnections.PiecesPayload | privval/secret_connection.go:212-230 | the chunks of a write together are the data |
| SecretConnections.FrameParts | privval/secret_connection.go:286-292 | a frame yields its chunk again, whatever the pooled buffer held |
| SecretConnections.ReadsPrefixOfWrites | privval/secret_connection.go:208-299 | for any writes and read sizes, what was read is a prefix of what was written, no read fails, and an idle channel has delivered everything |
| SecretDelivery.WriteSends | privval/secret_connection.go:208-251 | a write puts its data on the wire from the front, as far as the counter goes |
| SecretDelivery.ReadProgress | privval/secret_connection.go:254-299 | as long as not everything was read, a read into a buffer brings at least one byte and at most the buffer's size |
| SecretDelivery.EverythingArrives | privval/secret_connection.go:254-299 | after any run, as many reads into buffers as bytes are left bring all of them |
| SecretDelivery.MessagesArrive | privval/secret_connection.go:208-299 | messages written to a new connection, as many frames as the counter allows, are read in full, in order and once |
| SecretDelivery.ReadAtomically | privval/secret_connection.go:206-253 | data that fits a frame is read at once when nothing else is on the way |
| SecretAuthenticity.ReadsAreAuthentic | privval/secret_connection.go:254-299 | whatever bytes the network delivers, and however often a read fails and is tried again, what was read is a prefix of what was written, if no frame is forged |
| SecretAuthenticity.ReadErrors | privval/secret_connection.go:265-292 | what each error of a read means; every error but a missing frame costs exactly that frame |
| SecretAuthenticity.GarbageSkipped | privval/secret_connection.go:265-283 | frames made up by the network cost one failed read each, and then the sender's next frame is read |
| SecretAuthenticity.VouchingUnforged | privval/secret_connection.go:273-283 | that assumption can be met |
| SecretConnections.NoncesDistinct | privval/secret_connection.go:232-236 | no two frames that one end sent under its key share a nonce, as section 2.8 of RFC 8439 demands |
| SecretConnections.SealedOnceIff | privval/secret_connection.go:208-251 | both ends together never repeat a key with a nonce if and only if they send under different keys or one of them has sent nothing |
| SecretConnections.KeysSwapped | privval/secret_connection.go:360-389 | each end sends under the key the other receives under if and only if the ephemeral keys differ or the two derived keys are equal |
| SecretConnections.HalvesOf | privval/secret_connection.go:380-389 | the end with the smaller ephemeral key receives under the first half of the key material |
| SecretConnections.SendKeysDiffer | privval/secret_connection.go:360-389 | the two ends send under different keys if and only if the ephemeral keys differ and so do the two halves of the key material |
| SecretConnectionObjects.IncrNonce | privval/secret_connection.go:481-491 | the next counter, or an error exactly at the last one |
| SecretConnectionObjects.SecretConnection.WriteFrame | privval/secret_connection.go:213-246 | one sealed frame goes out under the present nonce, or nothing does |
| SecretConnectionObjects.SecretConnection.Write | privval/secret_connection.go:208-251 | the chunks go out in order under consecutive nonces until the counter is used up |
| SecretConnectionObjects.SecretConnection.Read | privval/secret_connection.go:254-299 | buffer, nonce, stream and result are those of the specification |
| SocketPipeline.RunInv | abci/client/socket_client.go:149-263 | every interleaving keeps the pipeline in order, each call in one place, and replies with their own requests |
| SocketPipeline.NoUnexpectedResponse | abci/client/socket_client.go:216-230 | the two unexpected-response errors are unreachable, however many callers time out |
| SocketPipeline.OwnReply | abci/client/socket_client.go:216-263 | every caller that got a reply got the answer to its own request, computed in the order of sending |
| SocketPipeline.SentList | abci/server/socket_server.go:163-312 | the sent list is, oldest first, responses on the wire, queued and in hand, requests in hand and on the wire, and the one not yet written |
| SocketReplies.ProcessMeaning | abci/server/socket_server.go:198-286 | a request is answered by the application, or by itself if it is an echo, and refused exactly when its kind is unknown or the application fails |
| SocketReplies.RepliesAreAnswers | abci/server/socket_server.go:198-286 | in every run the caller of the k-th answered request holds what the application said to the k-th request, which is that one |
| SocketReplies.ClosesIff | abci/server/socket_server.go:183-187 | the connection closes exactly when a request that nobody can answer is processed |
| SocketReplies.RunLosesNone | abci/client/socket_client.go:149-263 | in every run each call is waiting, being sent, tracked or given up by its caller |
| SocketReplies.StepsNearer | abci/client/socket_client.go:149-263 | every step of the goroutines brings something nearer to its caller, closes the connection or is not possible |
| SocketReplies.NoDeadlock | abci/client/socket_client.go:149-263 | as long as anything is on its way, some goroutine can go on |
| SocketReplies.EveryoneAnswered | abci/client/socket_client.go:240-263 | from the middle of any exchange with an application that answers, the goroutines can go on until every caller that did not give up has its answer |
| SocketClients.SocketClient.TrackRequest | abci/client/socket_client.go:204-214 | the request joins the end of the list while the client runs, and is dropped once it does not |
| SocketClients.SocketClient.DidRecvResponse | abci/client/socket_client.go:216-236 | the response goes to the oldest request if it is of its kind and that request leaves the list; otherwise an error and no change |
| SocketClients.SocketClient.DrainQueue | abci/client/socket_client.go:267-276 | every waiter left is released |
| TxRecords.NewTxRecordSet | types/tx.go:167-193 | one pass builds every index in record order |
| TxRecords.IndexedLists | types/tx.go:167-193 | what is included, and every other index, lists all records with its actions, in record order |
| TxRecords.SortedCopy | types/tx.go:278-283 | an ordered permutation |
| TxRecords.Contains | types/tx.go:311-319 | binary search finds an element if and only if it is there |
| TxRecords.ContainsAny | types/tx.go:288-295 | finds the first of the elements that is there, if and only if there is one |
| TxRecords.ContainsAll | types/tx.go:300-307 | says whether all are there, or names the first that is not |
| TxRecords.Validate | types/tx.go:214-276 | the error, if any, is that of the set specification, for every limit and every action |
| TxRecords.ValidIff | types/tx.go:214-276 | valid if and only if no record is unknown, all are distinct, the included bytes fit, and the actions tell the truth about the originals |
| TxRecords.RefusedBecause | types/tx.go:214-276 | a refusal says what is wrong with the records |
| TxRecords.ValidBlock | types/tx.go:195-276 | the block made of valid records has no transaction twice, fits, and holds originals and additions only |
| LightProviders.ValidatePrimaryAndWitnesses | light/client.go:122-134 | accepts if and only if the witnesses are distinct and the primary is not among them |
| LightProviders.RemoveAll | light/client.go:717-722 | swap with last in descending order drops exactly the chosen witnesses |
| LightProviders.LightClient.RemoveWitnesses | light/client.go:711-725 | exactly the witnesses at these indexes go, unless nobody would be left |
| LightProviders.DecideMeaning | light/client.go:764-818 | the first block, cancellation or missing response settles the search; without one it ends with the last error and every bad witness |
| LightProviders.LightClient.FindNewPrimary | light/client.go:737-827 | the light block of the promoted witness, or the context's, the last or the no-witness error; primary and witnesses are together the old providers without the bad ones and, if it was to go, the old primary; when the promotion fails, and what is left then |
| LightProviders.PromotedApart | light/client.go:737-827 | after a successful promotion providers are still distinct and the primary is not a witness |
| LightProviders.FoundApartIff | light/client.go:737-827 | after a search the primary is not a witness and witnesses are distinct if and only if the promotion did not fail for want of witnesses |
| LightProviders.StrandedIff | light/client.go:711-725 | and it fails exactly when all witnesses answer, the last one with a block and the others badly |
| LightProviders.LoneWitnessStranded | light/client.go:737-827 | a lone witness that answers is promoted and stays a witness when the primary was to go |
| Timeliness.DelayFits | types/validation.go:61-70 | the scaled delay never overflows 64-bit integers |
| Timeliness.DelayMeaning | types/validation.go:55-70 | the delay is doubled once every ten rounds, or as often as it fits 64-bit integers |
| Timeliness.TimelyIff | types/validation.go:72-83 | timely means no earlier than the precision before the timestamp and no later than delay and precision after it |
| Timeliness.TimelyStays | types/validation.go:55-83 | timely in a round means timely in every later round, and early does not depend on the round |

## Left out

- BLS, SHA-256, ChaCha20-Poly1305, Diffie-Hellman and the handshake transcript: they are function parameters.
- Sign bytes and the DIP-0007 sign hash: function parameters of the fields they are computed from.
- Nil validator sets, nil commits and nil entries in a commit's extensions: the model starts from present values.
- Mutexes: each locked method is one step. Goroutines of the socket pipeline are interleaved steps.
- Failing writes on connections: the model ends where the source stops the client, the server or the connection.
- The proposer index after removals: change sets do not touch it, and nothing is claimed of it.
- Priorities, proposer selection, key files and key rotation of the signer, and `Reset`.
- Block, header, proposal, evidence-pool and genesis validation: field copies and single-branch checks.
- The light client's verification of headers and its store: only provider replacement is modelled.
- Configuration, RPC, events, logging and JSON.
- Aunts: the parent-linked nodes that the source builds and walks are modelled by the list of hashes they yield.
- CheckTimely: times are unbounded integers of nanoseconds; only the scaled delay is bounded.
- FindNewPrimary: a context that is cancelled and one past its deadline give one error here.
- Next: the socket model's application answers as a function of how many requests it has served and of the request.
