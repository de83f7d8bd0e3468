# Cortex backend, verified

A Dafny model of the parts of the backend that other parties have to rely on, with proofs of what
they rely on. `dafny verify dfyconfig.toml` checks everything.

| part | files |
|---|---|
| off-chain payment channels | `channel_state`, `revocation_store`, `channel_negotiator`, `channel_safety`, `channel_secrecy`, `channel_rounds`, `watchtower`, `refusals` |
| attestations, metering and batches | `attestation_canonical`, `merkle_tree`, `merkle_batch`, `attestation_verifier`, `metering`, `attestation_archive`, `batch_ranges` |
| audit log, its verifier and its anchors | `json_text`, `json_layout`, `json_scan`, `text_order`, `audit_chain`, `ordered_tree`, `audit_tree`, `utf8`, `merkle_anchor`, `anchor_answers` |
| relationship graph and wash usage | `union_find`, `relation_graph`, `wash_usage` |
| settlement, disputes and fees | `settlement`, `settlement_safety`, `settlement_runs`, `batch_settler`, `dispute_game`, `base_fee` |
| shared | `bytes`, `outcomes`, `decimal`, `hexadecimal`, `big_int` |

How the model is built:

- Code that changes fields step by step is a class whose methods are proved against functions on
  values; runs are sequences of calls of those functions, and the theorems are about all runs.
  Code that only computes is functions.
- SHA-256 is a parameter. Nothing is assumed of it beyond the width of its output. A theorem that
  needs collision resistance asks for it over the finite set of messages that the code in question
  hashes (`Bytes.CollisionFree`), so its hypothesis is one that the real function can meet.
- Ed25519 in the channels is an ideal signature: a signature value names its key and its message,
  and an adversary presents any value except one that an honest key would have had to make. In the
  attestations it is an arbitrary predicate of key, message and signature.
- Tables are sequences or maps. One transaction is one step; statements outside a transaction are
  separate steps, and a run may stop between any two. Clocks, random secrets, nonces and the
  answers of the chain are arguments, so theorems hold for all of them.

What the proofs found, where the code does not do what its comments or its callers may expect:

- A party signs one body per spelling of a version, not per version: slots are keyed by
  `String(version)` and versions are compared as numbers. `ChannelSafety.AgreementExactly` is the
  exact condition, and JavaScript numbers meet it.
- `deterministicJson` prints a missing payload as `{}`; apart from that, it is exactly canonical.
- The joined text under an entry hash marks the boundaries of its fields exactly when event type,
  actor and subject hold no bar (`AuditChain.TailDetermines`), although the comment on
  `computeEntryHash` says that it always does; a row with a bar can be replaced unnoticed
  (`AuditChain.BarsBlurFields`).
- Call indices are compared as JavaScript numbers, so the root of a batch binds its run exactly up
  to 2^53 (`MerkleBatchBuilder.RootBindsExactly`). Beyond that the batch table refuses runs with a
  gap, and an audit still catches tampering, but may refuse a sound batch
  (`AttestationArchive.CompleteBatchPassesAudit`).
- `verify` with a page size of 0 passes every log.
- The root of an anchor does not fix the number of entries (`AuditTree.RootForgetsLength`), unless no
  entry is repeated (`AuditTree.RootBindsDistinct`), as in a log that passes
  (`MerkleAnchor.VerifiedAnchorReaches`).
- `verifyMerkleProof` does not check the width of siblings. For entry hashes, the one width that it
  would have to refuse is 12 bytes (`MerkleAnchor.TwelveBytesExactly`). Nor does it check the width of
  the entry: a text of 64 bytes can pass for a pair (`AuditTree.PairTextPasses`), an entry hash cannot.
- Nothing keeps committed batches apart. They are pairwise disjoint exactly when each commit found its
  range free (`BatchRanges.BatchesDisjointExactly`), which for commits that all claim their leaves
  means unclaimed (`WholeBatchesDisjointExactly`). It fails when one offer is committed twice
  (`OfferTwiceOverlaps`), and when a commit stops after its row and the offer is then committed whole
  (`HalfDoneOverlaps`): there both commits found the range unclaimed. Which batches are whole is
  `AttestationArchive.CompleteExactly`.
- Failed settlements are never submitted again: `getRetryableSettlements` has no caller, so from an
  empty ledger nothing is dead-lettered. A confirmed settlement can still end up FAILED, exactly when
  its amounts no longer fit the deposits (`SettlementSafety.ConfirmedMayFail`,
  `SettlementRuns.ConfirmedFails`).
- Recovery is safe exactly when no settlement in flight has its row still PENDING
  (`SettlementSafety.RecoveryIsSafeExactly`), which holds at the start of a process but not, say, on
  `stop` followed by `start`: then a stream can be charged twice for one settlement
  (`SettlementRuns.PaidTwice`).
- Under load below the target the base fee converges to its minimum exactly when the load is at
  least 397 basis points below (`BaseFee.ReachesMinExactly`).
- A dispute commitment hashes evidence and salt without a separator, so each opening comes with
  others of shorter evidence (`DisputeGame.PrefixReveals`).
- A dispute keeps the revealed evidence as decoded text. Encoded again it opens the commitment exactly
  when the evidence was UTF-8 (`DisputeGame.RecordReopensExactly`).

## Model

| member | source | states |
|---|---|---|
| `ChannelState.EncodeStatePreimage` | backend/src/channels/canonical.js:80-97 | Filling the buffer field by field gives the fixed layout, and a field out of range is refused |
| `ChannelState.StateRoundTrip` | backend/src/channels/canonical.js:80-116 | Decoding undoes encoding exactly when every integer is the same as a Number: always up to 2^53, and beyond it only for integers a double holds |
| `ChannelState.SigningMessageInjective` | backend/src/channels/canonical.js:119-122 | Two channel states with the same signed bytes are the same, over all of u64 |
| `ChannelState.DomainsAreDisjoint` | backend/src/channels/canonical.js:119-122 | No channel-state message can be read as a leaf, a pair of nodes or a batch commitment, nor any of these as another |
| `ChannelState.CreatedStateVerifies` | backend/src/channels/ChannelState.js:68-167 | A created state lacks first the signature of A, then that of B, and becomes valid by the signatures of both keys over its own fields, in either order, and by no others; no state with other fields is valid with one of these signatures |
| `ChannelState.Verify` | backend/src/channels/ChannelState.js:146-167 | The reason is the first check that fails, in the order malformed, missing A, missing B, bad A, bad B; it is OK exactly when both signatures are there and were made by the two keys over this state |
| `ChannelState.ComparesVersions` | backend/src/channels/ChannelState.js:170-180 | States of one channel are ordered by the number of their version, and those of different channels not at all |
| `ChannelState.SupersedesExactly` | backend/src/channels/ChannelState.js:187-196 | A state supersedes another exactly when it is of the same channel, has the higher number and verifies; never both ways |
| `Revocation.RevocationStore.DoCommit` | backend/src/channels/RevocationStore.js:73-87 | A commitment is one-shot: a second one for a slot is refused, and no call ever changes a commitment on record |
| `Revocation.RevocationStore.DoRecordCommitment` | backend/src/channels/RevocationStore.js:127-141 | The same for a commitment of the counterparty |
| `Revocation.RevocationStore.DoReveal` | backend/src/channels/RevocationStore.js:97-119 | Only an own secret on record is handed out, and the slot is marked |
| `Revocation.RevocationStore.VerifySecret` | backend/src/channels/RevocationStore.js:183-200 | Names the party whose commitment the secret opens, party A first, exactly when it opens one |
| `Revocation.RevocationStore.DoRecordRevealedSecret` | backend/src/channels/RevocationStore.js:150-166 | Accepts a secret that opens either commitment and files it under the named party |
| `Negotiation.ChannelNegotiator.RunPropose` | backend/src/channels/ChannelNegotiator.js:101-125 | The call, statement by statement, has the result and the new store of the specification, refusals included |
| `Negotiation.ChannelNegotiator.RunCounterSign` | backend/src/channels/ChannelNegotiator.js:133-180 | The same for counter-signing: own commitment and that of the proposer go on record, the proposal is signed, and a pending round is overwritten whatever it was |
| `Negotiation.ChannelNegotiator.RunAck` | backend/src/channels/ChannelNegotiator.js:188-270 | The same for the acknowledgement: the commitment of the counterparty is on record even when its signature is then refused; otherwise the state is signed, adopted, and the old secret revealed |
| `Negotiation.ChannelNegotiator.RunComplete` | backend/src/channels/ChannelNegotiator.js:278-321 | The same for completion: only a fully signed, newer state of this channel is adopted, then the old secret revealed |
| `Negotiation.ChannelNegotiator.RunFinalize` | backend/src/channels/ChannelNegotiator.js:328-337 | The same for the last message: the secret of the counterparty is filed, and one that opens no commitment is refused |
| `Refusals.StoreRefusals` | backend/src/channels/RevocationStore.js:73-141 | Commitments go on record exactly for free slots, and a secret is handed out exactly when it is our own; each reason is true and nothing else changes |
| `Refusals.RevealedSecretRefusals` | backend/src/channels/RevocationStore.js:150-166 | A revealed secret is filed exactly when it opens a commitment of the version and the named party has one on record; each reason exactly when it is true |
| `Refusals.ProposeExactly` | backend/src/channels/ChannelNegotiator.js:101-125 | A proposal is made exactly when no round is in progress, the version is new and the slot free; it carries its arguments, and a refused one leaves no trace |
| `Refusals.CounterSignExactly` | backend/src/channels/ChannelNegotiator.js:133-180 | A proposal is counter-signed exactly when it is for this channel, by the other party, new, with both slots free and fields that can be encoded; what is signed are its fields |
| `Refusals.CounterSignRefusals` | backend/src/channels/ChannelNegotiator.js:133-180 | A refused proposal is not signed, and the reason is true |
| `Refusals.AckExactly` | backend/src/channels/ChannelNegotiator.js:188-270 | A counter-signature is taken exactly when it is the signature of the counterparty over the proposal in flight and the old state can be given up |
| `Refusals.AckRefusals` | backend/src/channels/ChannelNegotiator.js:188-270 | A refused one changes no state and reveals nothing, and the reason is true |
| `Refusals.CompleteExactly` | backend/src/channels/ChannelNegotiator.js:278-321 | An acknowledged state is taken exactly when it is for this channel and the version in progress, verifies, and the secret with it can be filed; otherwise the reason is true |
| `Refusals.NothingInProgress` | backend/src/channels/ChannelNegotiator.js:188-321 | Without a round in progress there is nothing to acknowledge or complete |
| `Refusals.FinalizeExactly` | backend/src/channels/ChannelNegotiator.js:328-337 | The last message files its secret or changes nothing |
| `ChannelSafety.StepKeepsInv` | backend/src/channels/ChannelNegotiator.js:101-337 | Each call, with any arguments, keeps: no version is signed twice, both commitments are on record before a signature or the version is not above the current one, only superseded versions are revealed |
| `ChannelSafety.RunKeepsInv` | backend/src/channels/ChannelNegotiator.js:101-337 | So does every run of calls, hence every prefix at which a round is abandoned |
| `ChannelSafety.RevealSafety` | backend/src/channels/ChannelNegotiator.js:188-321 | After every run, from any signed state to start from or from none, each version whose secret was revealed lies strictly below the current one, and the current state verifies under both keys |
| `ChannelSafety.SecretsLeaveOnlyWhenSuperseded` | backend/src/channels/ChannelNegotiator.js:248-321 | A message carries a secret only if, in that same call, a successor of its version was adopted |
| `ChannelSafety.RunSupersedes` | backend/src/channels/ChannelState.js:187-199 | Over every run the held state is replaced only by states of the same channel with a higher number and the signatures of both keys |
| `ChannelSafety.TwoSpellingsSignTwice` | backend/src/channels/RevocationStore.js:44-46 | With two spellings of one number, as "1" and "1.0", a party signs two bodies for it, whatever secrets it draws: a run is given |
| `ChannelSafety.AgreementExactly` | backend/src/channels/ChannelNegotiator.js:101-270 | One body per version number in all runs over a set of versions exactly when each number has one spelling there |
| `ChannelSafety.FullySignedIsLogged` | backend/src/channels/ChannelNegotiator.js:101-270 | A fully signed state that exists carries a body from the log of the honest party |
| `ChannelSafety.Agreement` | backend/src/channels/ChannelNegotiator.js:72-321 | One honest party is enough, with or without a state to start from: no two different states of one version are ever fully signed |
| `ChannelSafety.SystemRunKeepsInv` | backend/src/channels/ChannelNegotiator.js:101-337 | Two honest parties with a network that loses, repeats, reorders and makes up messages: every signature in a held state is in the log of its signer |
| `ChannelSafety.SystemRunIsTwoRuns` | backend/src/channels/ChannelNegotiator.js:101-337 | Each party goes through a run of its own calls, whatever reaches the other |
| `ChannelSafety.PartiesAgree` | backend/src/channels/ChannelNegotiator.js:72-337 | In every such run, with or without a state that both start from, two parties at the same version hold the same state |
| `ChannelSecrecy.StepKeepsRecord` | backend/src/channels/ChannelNegotiator.js:101-337 | Each call, with any arguments, keeps: what is signed after the start, or revealed, belongs to commitments on record for its version, and each secret on file opens one of them |
| `ChannelSecrecy.RunKeepsSecrecy` | backend/src/channels/ChannelNegotiator.js:101-337 | So does every run, and the held state stays one that this party signed |
| `ChannelSecrecy.HeldStateStaysSecret` | backend/src/channels/ChannelNegotiator.js:188-321 | Whatever the counterparty sends: once a secret was given away, the commitments of the held state are on record, and the secret opens one of them only if the same commitment is also on record for an earlier version |
| `ChannelRounds.RoundCalls` | backend/src/channels/ChannelNegotiator.js:101-337 | From any honest history an honest round is refused nowhere, whichever side proposes, and both stores record the same |
| `ChannelRounds.RoundSucceeds` | backend/src/channels/ChannelNegotiator.js:101-337 | Both parties hold the new state, and their stores the secrets of every superseded one |
| `ChannelRounds.PlayIsHonest` | backend/src/channels/ChannelNegotiator.js:101-337 | So for any number of rounds with either side proposing |
| `ChannelRounds.SupersededIsPunishable` | backend/src/channels/FraudProofBuilder.js:32-40 | After any number of honest rounds, both parties hold the last state; every superseded state gives both parties a claim whose secret opens the signed commitment and both watchtowers justice for it; the current state gives neither |
| `ChannelRounds.BothCanClaim` | backend/src/channels/FraudProofBuilder.js:32-40 | The claim of each store for a superseded state is for its channel and version and passes the check of the contract, and there is none for the current one |
| `ChannelRounds.CurrentIsUnknown` | backend/src/channels/Watchtower.js:101-109 | The watchtower never finds justice for the current state |
| `Watchtower.Watchtower.DoRegister` | backend/src/channels/Watchtower.js:76-87 | Registering files the package under the hash of the state, replacing an earlier one, and touches no other |
| `Watchtower.ClaimIsOnFile` | backend/src/channels/FraudProofBuilder.js:32-40 | For every store: a claim is for the channel and the version asked about, with the secret on file as revealed for the party it names, B only when there is none of A; there is no claim exactly when neither is on file |
| `AttestationCanonical.EncodeLeafPreimage` | backend/src/attestation/canonical.js:152-163 | Filling the buffer field by field gives the 120-byte layout, and a bad field is refused |
| `AttestationCanonical.LeafRoundTrip` | backend/src/attestation/canonical.js:152-181 | Decoding undoes encoding exactly when every integer is the same as a Number |
| `AttestationCanonical.LeafRoundTripLosesPrecision` | backend/src/attestation/canonical.js:166-181 | 2^53 + 1 does not come back |
| `Bytes.RoundsToNearest` | backend/src/attestation/canonical.js:166-181 | Number() of an integer beyond 2^53 is the nearest multiple of the spacing of doubles there, and of two the one with the even quotient |
| `AttestationCanonical.SigningMessageInjective` | backend/src/attestation/canonical.js:184-186 | Attestations with the same signed bytes carry the same fields, over all of u64 |
| `AttestationCanonical.BatchCommitmentInjective` | backend/src/attestation/canonical.js:214-221 | A batch commitment fixes stream, root and call count |
| `AttestationCanonical.InternalMessageDetermines` | backend/src/attestation/canonical.js:199-208 | The message of a pair fixes its two children up to their order |
| `AttestationCanonical.SmallerDigestFirst` | backend/src/attestation/canonical.js:199-208 | The message of a pair holds its two digests, and the one that is the smaller number comes first |
| `MerkleTree.PathClimbs` | backend/src/attestation/MerkleBatchBuilder.js:111-127 | Walking the siblings of a leaf passes through its ancestors, level by level |
| `MerkleTree.WalkStartsAtLeaf` | backend/src/attestation/MerkleBatchBuilder.js:152-158 | A walk that lands in a node of level k took k steps and started at a leaf |
| `MerkleTree.SameRootSameLeaves` | backend/src/attestation/MerkleBatchBuilder.js:36-52 | Unordered trees under one root have the same leaves, as sets |
| `MerkleTree.SameRootSameLengthSameLeaves` | backend/src/audit/MerkleAnchor.js:70-88 | Ordered trees of one length under one root have the same leaves in the same order |
| `MerkleBatchBuilder.BuildLevels` | backend/src/attestation/MerkleBatchBuilder.js:36-52 | The loop computes every level of the tree, odd tails paired with themselves, and ends in the root |
| `MerkleBatchBuilder.Build` | backend/src/attestation/MerkleBatchBuilder.js:66-102 | Accepts exactly the nonempty runs of one stream with encodable fields whose call indices, read and counted on as JavaScript numbers, are contiguous; a refusal names the first position at fault |
| `MerkleBatchBuilder.ProofForPosition` | backend/src/attestation/MerkleBatchBuilder.js:111-127 | A proof for every position in range and no other, as long as the tree is high, listing the siblings on the way up |
| `MerkleBatchBuilder.RootFromProof` | backend/src/attestation/MerkleBatchBuilder.js:152-158 | Computes the walk, or refuses a sibling of the wrong width |
| `MerkleBatchBuilder.ProofComplete` | backend/src/attestation/MerkleBatchBuilder.js:161-168 | Every position of every batch has a proof that verifies |
| `MerkleBatchBuilder.ProofSound` | backend/src/attestation/MerkleBatchBuilder.js:152-168 | Any fields and siblings that verify against a built root are a member of that batch, and the proof is as long as the tree is high |
| `MerkleBatchBuilder.RootBindsRising` | backend/src/attestation/MerkleBatchBuilder.js:66-102 | Two batches that build under one root, with call indices that increase as numbers, are the same run: same count, indices and signed fields, in the same order |
| `MerkleBatchBuilder.RootBindsBatch` | backend/src/attestation/MerkleBatchBuilder.js:66-102 | So are any two that stay within 2^53 |
| `MerkleBatchBuilder.RootBindsExactly` | backend/src/attestation/MerkleBatchBuilder.js:71-87 | For every hash function without collisions on the messages of the next row, the root binds all runs with indices up to a bound exactly when the bound is at most 2^53 |
| `MerkleBatchBuilder.LimitRunsShareRoot` | backend/src/attestation/MerkleBatchBuilder.js:71-87 | At 2^53 it does not, under any such hash function: two calls with that index build under one root in either order |
| `MerkleBatchBuilder.RootForgets` | backend/src/attestation/canonical.js:199-208 | The tree alone forgets order and the length of odd levels: without the contiguity check the previous row would be false |
| `AttestationVerifier.AcceptedExactly` | backend/src/attestation/AttestationVerifier.js:216-240 | Accepted exactly when the signed part stands, the nonce is new on the stream and the index exceeds every earlier one; the nonce is burnt then and only then |
| `AttestationVerifier.RefusedExactly` | backend/src/attestation/AttestationVerifier.js:216-240 | What stands on its own is refused as a reused nonce exactly when the nonce was used, and as out of order exactly when it is new but the index does not exceed every earlier one |
| `AttestationVerifier.BurnsOnce` | backend/src/repositories/attestationRepository.js:175-184 | A nonce is burnt once, and keeps the index it was burnt with |
| `AttestationVerifier.NothingAcceptedTwice` | backend/src/attestation/AttestationVerifier.js:212-229 | Presented again, whatever was accepted in between, an attestation is refused as a reused nonce |
| `AttestationVerifier.CheckExactly` | backend/src/attestation/AttestationVerifier.js:148-202 | The signed part stands exactly when it is well formed, for the stream, encodable, signed by the one signer that is asked for or named, and not dated ahead of the clock; every reason is true |
| `AttestationVerifier.RawSignatureExactly` | backend/src/attestation/AttestationVerifier.js:99-110 | A signature is refused exactly when it is not 64 bytes long or the key did not make it |
| `AttestationVerifier.DriftIsDifference` | backend/src/attestation/AttestationVerifier.js:191-200 | Up to 2^53 the drift is the difference of the two times |
| `AttestationVerifier.CheckSet` | backend/src/attestation/AttestationVerifier.js:251-281 | Names the first position that fails on its own, repeats a nonce or does not increase the index, with the reason, and none exactly when all stand; whatever fails on its own is reported as such at every position |
| `Metering.ConsecutiveIsRange` | backend/src/repositories/attestationRepository.js:155-167 | A consecutive run of archived leaves is the whole range of indices it spans |
| `Metering.OfferIsArchived` | backend/src/attestation/AttestationArchive.js:97-122 | What is offered for a batch builds and consists of metered leaves in their order; if the batch table takes its row, as it does below 2^53, it is all that the archive holds from its first index to its last |
| `Metering.OfferExactly` | backend/src/attestation/AttestationArchive.js:97-122 | The offer is the longest front of the un-batched tail without a gap, up to the size asked for; it is withheld exactly when that is too short, and fails exactly when that is empty or does not build |
| `Metering.HeldExactly` | backend/src/repositories/attestationRepository.js:117-141 | What is found for a batch, or un-batched, is what the leaves with that reference carry |
| `Metering.RecordLeafInserts` | backend/src/repositories/attestationRepository.js:91-114 | A leaf is inserted in order exactly when its index is free, and no other is touched |
| `Metering.AllowedIsArchived` | backend/src/db/migrations/021_add_attestations.sql:40-64 | The constraint on the count of a batch leaves no room for a gap, although indices are compared as JavaScript numbers |
| `Metering.MeteredCall` | backend/src/protocol/MeteringEngine.js:182-240 | A metered attestation adds one used nonce and one leaf, above all earlier indices |
| `Metering.MeterExactly` | backend/src/protocol/MeteringEngine.js:162-262 | A call is metered exactly when an attestation is there or none enforced, the stream is active with calls left, and the attestation is accepted; it costs one call, and every error is true |
| `Metering.SettlesWhenDue` | backend/src/protocol/BatchSettler.js:46-66 | The used calls are settled exactly when 25 are due, or by force on an active stream, and then all of them |
| `Metering.RunKeepsGood` | backend/src/protocol/MeteringEngine.js:182-262 | Every run of calls, settlements, offers and commits, with stale offers and commits that stop between their two statements, keeps: one nonce a leaf, strictly increasing indices, every batch over all archived leaves of its range under its signed root |
| `AttestationArchive.RunConserves` | backend/src/protocol/MeteringEngine.js:182-262 | Whenever the settler resets the row: each metered call is taken off the calls remaining, each is either used or settled, and with attestations enforced each has exactly one leaf |
| `AttestationArchive.LeavesNeverRepeat` | backend/src/attestation/AttestationVerifier.js:216-240 | In every run later leaves have larger indices and other nonces, and every leaf verifies under its signer |
| `AttestationArchive.RunExtends` | backend/src/repositories/attestationRepository.js:155-167 | A leaf is never lost or changed, and once claimed it stays with its batch |
| `AttestationArchive.CompleteExactly` | backend/src/repositories/attestationRepository.js:155-167 | A committed batch holds every call it commits to exactly when no other batch had claimed one of them |
| `AttestationArchive.SameOfferTwice` | backend/src/attestation/AttestationArchive.js:135-178 | One offer committed twice leaves a second, incomplete batch over the same calls |
| `Metering.CommitExactly` | backend/src/attestation/AttestationArchive.js:135-178 | A batch is stored exactly when the seller signed root and count of its run and the table takes its row; of the leaves only unclaimed ones in range are claimed, by the second statement |
| `BatchRanges.ApartExactly` | backend/src/attestation/AttestationArchive.js:135-178 | The range of a row is apart from those of all committed batches exactly when it is free: none of its leaves is claimed, and no incomplete batch reaches into it. Where all batches are complete, the first alone says so |
| `BatchRanges.CommitKeepsComplete` | backend/src/repositories/attestationRepository.js:155-167 | After a whole commit every batch is still complete exactly when no leaf of its range was claimed |
| `BatchRanges.MeteringKeepsComplete` | backend/src/protocol/MeteringEngine.js:182-262 | Metering keeps every batch complete |
| `BatchRanges.BatchesDisjointExactly` | backend/src/attestation/AttestationArchive.js:135-178 | In every run, with commits that stop halfway and offers that are stale or repeated, the committed batches are pairwise disjoint exactly when each found its range free |
| `BatchRanges.WholeBatchesDisjointExactly` | backend/src/attestation/AttestationArchive.js:135-178 | In every run whose commits all claim their leaves, they are exactly when each found no leaf of its range claimed, and then all of them are complete |
| `BatchRanges.OfferTwiceOverlaps` | backend/src/attestation/AttestationArchive.js:135-178 | Committed twice, an offer leaves two batches over one range |
| `BatchRanges.HalfDoneOverlaps` | backend/src/attestation/AttestationArchive.js:152-169 | So does a commit that stops between its row and its leaves, followed by a whole one, although each found the range unclaimed and the second is complete |
| `BatchRanges.OverlapIsReached` | backend/src/attestation/AttestationArchive.js:135-178 | Both are reached from an empty archive with one metered call |
| `AttestationArchive.CompleteMeansAllHeld` | backend/src/repositories/attestationRepository.js:131-141 | The archive holds as many leaves as a batch commits to exactly when the batch is complete, and then they are its range |
| `AttestationArchive.ContiguousFront` | backend/src/attestation/AttestationArchive.js:101-107 | The loop stops at the first gap and nowhere before it |
| `AttestationArchive.StreamLedger.MeterOne` | backend/src/protocol/MeteringEngine.js:182-262 | The transaction has the new tables of the specification, and on an error none of it remains |
| `AttestationArchive.StreamLedger.PrepareBatch` | backend/src/attestation/AttestationArchive.js:97-122 | Builds the tree over the longest contiguous front of the un-batched tail, or nothing when that is shorter than asked; an empty tail with no minimum throws |
| `AttestationArchive.StreamLedger.CommitBatch` | backend/src/attestation/AttestationArchive.js:135-178 | Without the seller signature over root and count, or with a row that the table refuses, nothing is stored; else the row is, and the unclaimed leaves of its range are claimed |
| `AttestationArchive.StreamLedger.Audit` | backend/src/attestation/AttestationArchive.js:234-309 | Valid exactly when all leaves are there, rebuild the committed root, stand as a set under the signer, and the commitment is signed; otherwise root, commitment and the first position at fault are reported as they are, with the reason for it |
| `AttestationArchive.StreamLedger.GetProof` | backend/src/attestation/AttestationArchive.js:317-344 | The proof verifies against the recomputed root, which is compared with the committed one, and the voidable calls are counted from the disputed position |
| `AttestationArchive.RootMatchesExactly` | backend/src/attestation/AttestationArchive.js:317-344 | The recomputed root of a batch on record is the committed one exactly when the batch is complete |
| `AttestationArchive.CompleteBatchRebuilds` | backend/src/attestation/AttestationArchive.js:317-344 | The leaves of a complete batch rebuild its committed root |
| `AttestationArchive.CompleteBatchAnswers` | backend/src/attestation/AttestationArchive.js:320-341 | In a complete batch each call is at the position computed for it, and the voidable calls are the leaves of the batch from there on |
| `AttestationArchive.CompleteBatchNamesCall` | backend/src/attestation/AttestationArchive.js:296-307 | The call that an audit of a complete batch names for dispute is the one at the position that failed |
| `AttestationArchive.CompleteBatchPassesAudit` | backend/src/attestation/AttestationArchive.js:234-309 | For a buyer who expects its seller and whose clock is not behind the leaves, a complete batch passes the whole audit exactly when the index below its first is another number, as it is up to 2^53 |
| `AttestationArchive.AuditCatchesTampering` | backend/src/attestation/AttestationArchive.js:9-16 | Whatever is served for a batch of any run, at any index: if the audit accepts it, it has the signed fields that the seller committed to |
| `AttestationArchive.AcceptedUnderKey` | backend/src/attestation/AttestationArchive.js:234-309 | What passes an audit, the root and every call, was signed by the key that the buyer names, or else by the seller on record |
| `JsonText.SortKeysMeaning` | backend/src/audit/AuditLogWriter.js:110-115 | Sorting the keys of an object changes neither the keys nor what they map to |
| `TextOrder.TextBeforeExactly` | backend/src/audit/AuditLogWriter.js:110-112 | The order by which keys are sorted is that of their UTF-16 code units, the first difference deciding |
| `JsonLayout.KeysAscend` | backend/src/audit/AuditLogWriter.js:110-115 | The members of an object are printed in that order of their keys |
| `JsonLayout.PrintExactly` | backend/src/audit/AuditLogWriter.js:104-119 | Arrays and objects print as their parts joined by commas between brackets, members with a colon, and a missing payload as an empty object |
| `JsonText.EscapeExactly` | backend/src/audit/AuditLogWriter.js:108-119 | Exactly quotes, backslashes and characters below U+0020 are escaped, seven of them by a letter and the others by their code |
| `JsonText.PrintReadable` | backend/src/audit/AuditLogWriter.js:108-119 | The text of a value, followed by what can follow one, gives back the value up to key order and the rest |
| `JsonText.PrintIsCanonical` | backend/src/audit/AuditLogWriter.js:108-119 | Two values print alike exactly when they are equal up to key order at every depth |
| `JsonText.DeterministicJsonIsCanonical` | backend/src/audit/AuditLogWriter.js:104-120 | The same for whole payloads, null counting as an empty object |
| `AuditChain.AuditLog.Append` | backend/src/audit/AuditLogWriter.js:151-203 | The row appended is numbered and linked after the last one and hashes the payload as written; a missing event type or actor is refused |
| `AuditChain.AuditLog.AppendBatch` | backend/src/audit/AuditLogWriter.js:209-228 | The loop appends the rows in order, with falsy subjects and payloads replaced |
| `AuditChain.RowsCarryEntries` | backend/src/audit/AuditLogWriter.js:175-228 | Each row appended carries event type, actor, subject and stored payload of its entry, the next number, the hash of the row before it and the hash over the payload as written |
| `AuditChain.DefaultExactly` | backend/src/audit/AuditLogWriter.js:214-222 | In a batch exactly the empty subjects and the payloads without content are replaced |
| `AuditChain.FailureExactly` | backend/src/audit/AuditChainVerifier.js:60-105 | A row fails exactly for a wrong number, else a wrong link, else a wrong hash, and the reason says which |
| `AuditChain.AuditLog.Verify` | backend/src/audit/AuditChainVerifier.js:35-117 | For every page size from 1 the verdict names the first row that fails, with its number and reason, and passes exactly when none does; with page size 0 it passes at once |
| `AuditChain.VerdictUnique` | backend/src/audit/AuditChainVerifier.js:35-117 | There is one such verdict, so every page size reports the same |
| `AuditChain.AuditLog.VerifyRange` | backend/src/audit/AuditChainVerifier.js:127-215 | The same for a range, from the hash of the row before it; a missing predecessor fails the range |
| `AuditChain.SplitAnywhere` | backend/src/audit/AuditChainVerifier.js:127-215 | At every split point, the log passes exactly when both ranges pass and no row is numbered below 1 |
| `AuditChain.EntryHashIsStable` | backend/src/audit/AuditLogWriter.js:94-97 | The entry hash does not see the order of payload keys, so what the database hands back verifies |
| `AuditChain.HashInputIsJoined` | backend/src/audit/AuditLogWriter.js:94-97 | The text that is hashed is previous hash, number, event type, actor, subject and payload, joined by bars |
| `AuditChain.AppendKeepsSound` | backend/src/audit/AuditLogWriter.js:175-203 | After an append the log passes exactly when it passed before |
| `AuditChain.AppendAllKeepsSound` | backend/src/audit/AuditLogWriter.js:209-228 | The same for a batch |
| `AuditChain.HashInputDetermines` | backend/src/audit/AuditLogWriter.js:94-97 | The hashed text gives back the previous hash, the number and the joined rest |
| `AuditChain.LastHashBindsLog` | backend/src/audit/AuditChainVerifier.js:35-117 | Two passing logs that end in the same hash have the same length and agree row by row on number, links and joined fields |
| `JsonScan.ScanPrint` | backend/src/audit/AuditLogWriter.js:108-119 | A printed value leaves a scanner for strings where it was: strings are closed, and outside them stands no bar |
| `JsonScan.NoPrintEndsAnother` | backend/src/audit/AuditLogWriter.js:94-119 | No printed value is the end of another one after a bar |
| `AuditChain.TailDetermines` | backend/src/audit/AuditLogWriter.js:94-97 | For every row: the joined text fixes event type, actor, subject and the payload up to key order, against any other row, exactly when the first three hold no bar |
| `AuditChain.BarsBlurFields` | backend/src/audit/AuditLogWriter.js:81-97 | In a log that passes, every row with such a bar can be replaced by a row with other fields, and the log still passes |
| `Utf8.EncodeIsFaithful` | backend/src/audit/MerkleAnchor.js:47-49 | Different texts are hashed as different bytes |
| `Utf8.ShortestForm` | backend/src/audit/MerkleAnchor.js:47-49 | Each character takes as many bytes as it needs, each in the range of its position |
| `AuditTree.ComputeMerkleRoot` | backend/src/audit/MerkleAnchor.js:70-88 | The loop over layers computes the root, and zeros for no entries |
| `AuditTree.LeftThenRight` | backend/src/audit/MerkleAnchor.js:54-59 | A pair is hashed left child first |
| `AuditTree.GenerateMerkleProof` | backend/src/audit/MerkleAnchor.js:101-132 | For every index in range, the siblings on the way up, each with its side, as many as the tree is high |
| `AuditTree.VerifyMerkleProof` | backend/src/audit/MerkleAnchor.js:142-151 | Accepts exactly when the climb from the entry ends in the expected root |
| `AuditTree.SidedProofComplete` | backend/src/audit/MerkleAnchor.js:101-151 | The proof of every entry of every nonempty list climbs to its root |
| `AuditTree.SidedProofSound` | backend/src/audit/MerkleAnchor.js:142-151 | A proof that is accepted for a text of any length but 64 bytes belongs to an entry of the list and is as long as the tree is high, once no sibling is as long as the text of an entry less a digest |
| `AuditTree.PairTextPasses` | backend/src/audit/MerkleAnchor.js:142-151 | Under every hash function, a text of 64 bytes that is a pair of the tree passes with a proof that is one step short |
| `AuditTree.CompletionPasses` | backend/src/audit/MerkleAnchor.js:142-151 | Under every hash function, a text whose digest starts the text of an entry passes for it with a proof that is one step longer |
| `AuditTree.CompletionIsAccepted` | backend/src/audit/MerkleAnchor.js:142-151 | There are hash functions without collisions for which that happens |
| `AuditTree.RootBindsEntries` | backend/src/audit/MerkleAnchor.js:70-88 | Lists of one length under one root are equal |
| `OrderedTree.SameRootSameFront` | backend/src/audit/MerkleAnchor.js:70-88 | Of two lists under one root, whatever their lengths, the shorter one starts the longer one, which then repeats one of its entries |
| `AuditTree.RootBindsDistinct` | backend/src/audit/MerkleAnchor.js:70-88 | Lists without repetition under one root are equal, so for them the root fixes the length too |
| `AuditTree.RootForgetsLength` | backend/src/audit/MerkleAnchor.js:77-83 | The length is not in the root: [x, y, z] and [x, y, z, z] share one |
| `MerkleAnchor.MerkleAnchor.AnchorNow` | backend/src/audit/MerkleAnchor.js:239-349 | Refuses an empty range; otherwise the tables after each statement are those of the specification, wherever it stops |
| `MerkleAnchor.MerkleAnchor.MaybeAnchor` | backend/src/audit/MerkleAnchor.js:210-230 | Anchors what lies after the last anchored number when either threshold is crossed, and else changes nothing |
| `MerkleAnchor.MerkleAnchor.AnchorOnDemand` | backend/src/routes/compliance.js:405-427 | The same without thresholds |
| `MerkleAnchor.RunKeepsTiling` | backend/src/audit/MerkleAnchor.js:210-349 | Every run of appends and anchorings, with failed submissions and anchorings that stop halfway, keeps each live anchor starting where the one before ended, over its own rows |
| `MerkleAnchor.AnchorsTile` | backend/src/audit/MerkleAnchor.js:355-363 | Each number up to the last anchored one lies in exactly one submitted or confirmed anchor, and none beyond it does |
| `AnchorAnswers.AnchorsAreAnswered` | backend/src/audit/MerkleAnchor.js:276-325 | In every run each anchor has the attempt that made it: it is confirmed exactly when the chain took its root and that was recorded, and a refused one is never live |
| `AnchorAnswers.FailedAttemptsStartOver` | backend/src/audit/MerkleAnchor.js:276-363 | However many attempts fail, with appends in between, what was anchored stays as it was, and the next anchoring starts where the first failed one did and covers all of its numbers |
| `AnchorAnswers.ScheduleBoundsBacklog` | backend/src/audit/MerkleAnchor.js:210-230 | A check makes an anchor exactly when there is a backlog and a threshold is crossed; after it the backlog is below the interval, or empty up to the row of the anchoring itself unless the attempt failed |
| `AnchorAnswers.OnDemandExactly` | backend/src/routes/compliance.js:405-427 | On demand an anchor is made exactly when there is a backlog |
| `AnchorAnswers.NoticeTells` | backend/src/audit/MerkleAnchor.js:327-347 | The row that the anchoring adds says whether the chain took the root |
| `AnchorAnswers.AppendsExactly` | backend/src/audit/AuditLogWriter.js:151-203 | An entry is appended exactly when it has an event type and an actor, and no anchor changes |
| `MerkleAnchor.MerkleAnchor.ProveInclusion` | backend/src/audit/MerkleAnchor.js:408-450 | Answers exactly for the covered numbers, with the covering anchor of smallest end, the position counted from its start, the whole path from there, and a proof that verifies against the stored root |
| `MerkleAnchor.AnchorIsOwnRoot` | backend/src/audit/MerkleAnchor.js:257-275 | The root of every live anchor of every run is the root over the rows of its range |
| `MerkleAnchor.TwelveBytesExactly` | backend/src/audit/MerkleAnchor.js:142-151 | For entry hashes, refusing siblings of certain widths makes every accepted proof one of membership exactly when 12 bytes are among them |
| `MerkleAnchor.AcceptedIsAnchored` | backend/src/audit/MerkleAnchor.js:142-151 | In every run, an entry hash accepted against the stored root of a live anchor is that of a row in its range, unless the proof holds a sibling of 12 bytes |
| `MerkleAnchor.RootBindsHistory` | backend/src/audit/MerkleAnchor.js:257-275 | Two passing logs with one root over as many rows agree on every row up to the last one covered |
| `MerkleAnchor.VerifyAnchor` | backend/src/audit/AuditChainVerifier.js:227-244 | Recomputes the root of the range and compares it with the stored one |
| `MerkleAnchor.LiveAnchorHolds` | backend/src/audit/AuditChainVerifier.js:227-244 | In every run, every live anchor verifies against the log |
| `MerkleAnchor.VerifiedAnchorReaches` | backend/src/audit/AuditChainVerifier.js:220-244 | A log that passes and verifies against an anchor reaches the end of the anchor, although the number of entries is not compared |
| `MerkleAnchor.VerifiedAnchorBinds` | backend/src/audit/AuditChainVerifier.js:220-244 | Up to there, it is the log that was anchored |
| `UnionFind.UnionFind.Add` | backend/src/fraud/graph.js:26-32 | A node is added as its own class, or nothing changes |
| `UnionFind.UnionFind.Find` | backend/src/fraud/graph.js:34-48 | Returns the root of the class; path compression changes parents only, and no root |
| `UnionFind.UnionFind.Union` | backend/src/fraud/graph.js:50-63 | Merges the two classes and no others, and keeps sizes, forest and partition |
| `UnionFind.SameRootExactlyWhenConnected` | backend/src/fraud/graph.js:20-63 | Two nodes share a root exactly when a walk over the united pairs joins them |
| `UnionFind.DepthIsLogarithmic` | backend/src/fraud/graph.js:50-63 | Two to the depth of a node is at most the size kept at its root |
| `RelationGraph.KeySymmetric` | backend/src/fraud/graph.js:66-68 | A pair in either order has one edge key |
| `RelationGraph.KeyInOrder` | backend/src/fraud/graph.js:66-68 | The end that comes first in UTF-16 order comes first in the key |
| `RelationGraph.LinksExactly` | backend/src/fraud/graph.js:126-134 | A row links its two ends exactly when neither is missing and they differ |
| `RelationGraph.AddRowKeepsEdges` | backend/src/fraud/graph.js:126-162 | Edges sum counts and values of the usable rows between their ends |
| `RelationGraph.BuildGraph` | backend/src/fraud/graph.js:112-214 | Nodes, adjacency and edges are those of the rows, and the components exactly the connected components, numbered, with all their nodes, edges and sizes |
| `RelationGraph.PartitionIgnoresRowOrder` | backend/src/fraud/graph.js:112-214 | Rows that link the same pairs, in any order and from any source, give the same components |
| `WashUsage.ReachableIgnoringDirectEdge` | backend/src/fraud/WashUsageDetector.js:38-60 | True exactly when a walk of at least one and at most `hops` steps joins the two without their own edge |
| `WashUsage.ClassifyCaller` | backend/src/fraud/WashUsageDetector.js:67-80 | Each verdict is given exactly when its own condition holds and no earlier one does |
| `WashUsage.MereCustomerIsNotLinked` | backend/src/fraud/WashUsageDetector.js:15-23 | A caller whose only relationship is buying from the owner is not linked, whatever the hop limit |
| `WashUsage.LinkedShareComponent` | backend/src/fraud/WashUsageDetector.js:74-76 | Whoever is linked is in the component of the owner |
| `Settlement.WithdrawsExactly` | backend/src/repositories/streamRepository.js:177-195 | The withdrawals of a settlement commit exactly when every deposit covers all that is taken from it, and take just that, whatever the accounts |
| `Settlement.CachedExactly` | backend/src/protocol/SettlementLedger.js:36-57 | A new settlement works on an old row exactly when that is the newest with its nonce and recipient, and CONFIRMED |
| `Settlement.BeginsExactly` | backend/src/protocol/SettlementLedger.js:36-57 | Otherwise it works on a PENDING row of its own, and goes on to submit exactly when a contract is configured |
| `Settlement.ClaimableIsMost` | backend/src/protocol/BatchSettler.js:78-82 | A claim is the largest amount that has accrued and is left of the deposit, or nothing |
| `Settlement.FailsExactly` | backend/src/protocol/SettlementLedger.js:86-104 | A failure is counted, from the third on the row is dead-lettered, and it stays the same settlement |
| `SettlementSafety.RunConserves` | backend/src/repositories/streamRepository.js:177-195 | In every run, what is withdrawn is what was withdrawn before plus each payment plus each healing, and never exceeds the deposit |
| `SettlementSafety.NeverPendingAgain` | backend/src/repositories/settlementRepository.js:49-99 | A row never returns to PENDING, and its nonce, streams and amounts never change |
| `SettlementSafety.FailedMeansRetriesLeft` | backend/src/protocol/SettlementLedger.js:86-104 | A FAILED row has failed less than three times |
| `SettlementSafety.RunPaysOnce` | backend/src/protocol/BatchSettler.js:211-280 | With crashes between any two steps, fresh nonces and quiet recoveries, nonces are submitted from PENDING rows only and each settlement is paid at most once, as announced |
| `SettlementSafety.UnquietRecoveryBreaks` | backend/src/protocol/BatchSettler.js:211-280 | From every sound state where a settlement in flight still has a PENDING row, a recovery that concludes each settlement before the next goes on to submit a nonce whose row is past PENDING |
| `SettlementSafety.RecoveryIsSafeExactly` | backend/src/protocol/BatchSettler.js:211-280 | A recovery is safe, whatever follows, exactly when no settlement in flight has its row PENDING; safe means that nonces are submitted from PENDING rows only and each settlement is paid at most once |
| `SettlementSafety.CrashIsQuiet` | backend/src/protocol/BatchSettler.js:211-280 | A crash forgets the settlements in flight and nothing that is stored, so the recovery after it starts quiet |
| `SettlementSafety.RefusedStatements` | backend/src/protocol/BatchSettler.js:96-130 | When the database refuses a statement after the submission, no table changes and a failure is recorded, if it can be |
| `SettlementSafety.RetriesAndHealings` | backend/src/protocol/DeadLetterQueue.js:39-69 | Exactly the dead-lettered rows are taken up again, and exactly the healings that fit the deposit are made |
| `SettlementSafety.UnquietIsReached` | backend/src/protocol/BatchSettler.js:76-88 | One settlement that has only begun makes such a state |
| `SettlementRuns.PaidTwice` | backend/src/protocol/BatchSettler.js:211-280 | With a recovery beside one settlement in flight, as on stop and start, the stream is charged twice, although every nonce is submitted from a PENDING row |
| `SettlementSafety.ReusedNonceBreaks` | backend/src/protocol/SettlementLedger.js:36-57 | With the nonce of a confirmed settlement drawn again, the next submission comes from a CONFIRMED row |
| `SettlementSafety.ConfirmedMayFail` | backend/src/protocol/BatchSettler.js:107-130 | A confirmed settlement is paid exactly when its amounts still fit the deposits, and else is rolled back and marked as failed |
| `SettlementRuns.ConfirmedFails` | backend/src/protocol/BatchSettler.js:107-130 | It happens: of two settlements of one stream begun before either is paid, the second, confirmed on the chain, ends up FAILED and unpaid |
| `SettlementSafety.NothingIsDeadLettered` | backend/src/protocol/SettlementLedger.js:131-135 | From an empty ledger no row fails twice, so none is ever dead-lettered |
| `BatchSettler.ClaimsFit` | backend/src/protocol/BatchSettler.js:76-80 | Claims of different streams fit their deposits when nothing else is withdrawn in between |
| `BatchSettler.Settler.BeginSettlement` | backend/src/protocol/SettlementLedger.js:36-57 | Creates a PENDING row for these streams and amounts, or returns the confirmed one with this nonce; no account changes |
| `BatchSettler.Settler.FailSettlement` | backend/src/protocol/SettlementLedger.js:86-104 | Counts the failure and dead-letters the row at the third |
| `BatchSettler.Settler.RecordWithdrawals` | backend/src/protocol/BatchSettler.js:114-123 | The loop commits all withdrawals or none |
| `BatchSettler.Settler.Conclude` | backend/src/protocol/BatchSettler.js:96-130 | Submits the row once. With an answer of the chain the row is CONFIRMED and each account grows by what is taken from it exactly when every deposit covers that; otherwise the row has failed once more and no account changes; wherever it stops, the tables say how far it came |
| `BatchSettler.Settler.RunSettlement` | backend/src/protocol/BatchSettler.js:32-134 | A settlement, cut short anywhere, is a run of the steps above, and its row and the accounts end as in the previous row for the claims on the accounts; without a contract it fails and nothing is submitted |
| `BatchSettler.Settler.RecoverPendingSettlements` | backend/src/protocol/BatchSettler.js:211-280 | Recovery is such a run: each row found PENDING is submitted once, in order, and by position confirmed and paid exactly when the chain takes it and the deposits then cover it, and failed once more otherwise; no row is left PENDING and no other touched; without a key or a contract nothing changes |
| `BatchSettler.Settler.DetectDivergence` | backend/src/protocol/SettlementReconciler.js:84-136 | Each divergence class exactly when the amounts compare so, with the difference that closes it |
| `BatchSettler.Settler.HealStream` | backend/src/protocol/SettlementReconciler.js:144-172 | The stream reaches the amount on the chain exactly when its deposit covers it; no other stream changes |
| `BatchSettler.Settler.RetryDeadLetter` | backend/src/protocol/DeadLetterQueue.js:39-69 | Only a dead-lettered row goes back to FAILED, with its retries at 0 |
| `DisputeGame.CommitmentBinds` | backend/src/arbitration/DisputeGame.js:90-96 | A commitment fixes evidence and salt run together, so the evidence exactly when the length of the salt is fixed |
| `DisputeGame.PrefixReveals` | backend/src/arbitration/DisputeGame.js:101-134 | It is not fixed: whatever evidence a reveal is accepted with, every proper prefix of it would have been accepted too |
| `DisputeGame.ChangesExactly` | backend/src/arbitration/DisputeGame.js:58-239 | In every game that can arise a move changes something exactly when it is made in its phase, in time, by the party entitled to it, and a reveal opens the commitment of that party |
| `DisputeGame.EveryRunIsExplained` | backend/src/arbitration/DisputeGame.js:58-239 | Over every run of a fresh game: the evidence on record for a party that has revealed is the text of what it passed in, which opens its commitment with the salt that came along; each window is counted from the move that opened it; the outcome follows from who missed a window, or is the ruling of the arbiter |
| `DisputeGame.RecordReopensExactly` | backend/src/arbitration/DisputeGame.js:90-133 | The evidence kept, encoded again, opens the commitment exactly when it was passed in as UTF-8 |
| `Refusals.DisputeRefusals` | backend/src/arbitration/DisputeGame.js:58-239 | A refused move changes nothing, and the reason is true |
| `Refusals.BothRevealedGoesOn` | backend/src/arbitration/DisputeGame.js:140-174 | When both have revealed the dispute goes on: to arbitration from the fourth round on, else to escalation |
| `DisputeGame.PayoutsArePool` | backend/src/arbitration/DisputeGame.js:249-288 | The winner and the loser are those of the outcome, and a split refunds each bond; payouts and treasury share add up to both bonds for every rate; up to 10000 bps no share is negative, and the treasury gets the rate of the slashed bond, rounded down |
| `BigInt.TowardZero` | backend/src/arbitration/DisputeGame.js:258-274 | Shares are divided toward zero, whatever the sign |
| `DisputeGame.PaysWhenResolved` | backend/src/arbitration/DisputeGame.js:249-252 | Nothing is paid out before the game is resolved |
| `DisputeGame.BondsAndPhases` | backend/src/arbitration/DisputeGame.js:80-234 | From a fresh game, every run keeps each bond at its start times 2 for each escalation, at most 8 times; round 4 is arbitration or its end; only a resolved game has an outcome |
| `DisputeGame.EveryMoveCounts` | backend/src/arbitration/DisputeGame.js:80-234 | Every move that changes an unresolved game lowers the number of moves left |
| `DisputeGame.AtMostNineteenChanges` | backend/src/arbitration/DisputeGame.js:80-234 | No run changes a fresh game more than nineteen times before it is resolved |
| `DisputeGame.ResolvedIsFinal` | backend/src/arbitration/DisputeGame.js:226-239 | A resolved game is final exactly when it was resolved before round 4; after that only another ruling of the arbiter changes it |
| `DisputeGame.ForfeitIsEarned` | backend/src/arbitration/DisputeGame.js:140-174 | A forfeit comes only after the deadline, and never against a party that revealed while the other did not |
| `DisputeGame.Dispute.DoRespond` | backend/src/arbitration/DisputeGame.js:58-84 | The call has the fields of the specification, refusals in the order of the code |
| `DisputeGame.Dispute.DoReveal` | backend/src/arbitration/DisputeGame.js:101-134 | The same for revealing: only in time, once, and with evidence and salt that match the own commitment |
| `DisputeGame.Dispute.DoCheckForfeit` | backend/src/arbitration/DisputeGame.js:140-174 | The same for forfeits, and returns the outcome |
| `DisputeGame.Dispute.DoEscalate` | backend/src/arbitration/DisputeGame.js:180-221 | The same for escalating: doubles the own bond once a round, and starts the next round when both have |
| `DisputeGame.Dispute.DoArbitrate` | backend/src/arbitration/DisputeGame.js:226-239 | The same for rulings: in arbitration or from round 4 on, by the arbiter if one is set |
| `BaseFee.NextInRange` | backend/src/market/BaseFeeController.js:69-73 | Whatever the fee and the load, the next fee is in range, for every configuration |
| `BaseFee.OneStep` | backend/src/market/BaseFeeController.js:26-67 | One window changes a fee in range by at most an eighth |
| `BaseFee.NextMonotone` | backend/src/market/BaseFeeController.js:26-67 | The next fee grows with the fee and with the load |
| `BaseFee.ManyWindows` | backend/src/market/BaseFeeController.js:26-67 | Over k windows of any load: 7^k fee0 <= 8^k fee_k <= 9^k fee0, always in range |
| `BaseFee.HigherLoadsHigherFee` | backend/src/market/BaseFeeController.js:26-67 | Higher loads and a higher start give a higher fee after any number of windows |
| `BaseFee.SustainedLoadReachesMax` | backend/src/market/BaseFeeController.js:38-52 | Load above the target, kept up, reaches the maximum |
| `BaseFee.IdlenessReachesMin` | backend/src/market/BaseFeeController.js:53-65 | No load, kept up, reaches the minimum |
| `BaseFee.StandsStillExactly` | backend/src/market/BaseFeeController.js:53-65 | The fee stands still exactly at the target, at a bound, or below the target when the decrease rounds to nothing |
| `BaseFee.ReachesMinExactly` | backend/src/market/BaseFeeController.js:53-65 | Under a load that stays the same, the fee reaches its minimum exactly when it is there already or the load is at least 397 basis points below the target, and then within one window a unit |

## Left out

- Encryption of watchtower blobs: the map stores the package itself under the hash, and the key
  derivation and AES-GCM around it are not modelled.
- Versions that are not integers, `NaN` or beyond 64 bits are refused by `createState` as the model's
  out-of-range versions are; they are not told apart.
- Integers of an attestation sent as text: `Metering.Posted` has them as JavaScript numbers, as JSON
  gives them. Integers beyond the BIGINT columns, which fail the transaction, are stored by the model.
- Channel ids and versions passed as BigInt above 2^53: the model has them as JavaScript numbers.
- Hexadecimal text stands for its bytes in keys, hashes, signatures and roots; upper and lower case
  are one.
- `_slot` creates an empty slot object before it is filled; the model has no empty slots.
- Liveness of the channel: `_pending` is never reset, so nothing is claimed about progress.
- Watchtowers that miss a round: each one is handed every package of its party as it arrives.
- graph.js: first and last seen, sources, per-node totals, density, the order of components by
  `localeCompare`, and `subgraphFor`. Iteration order of maps and sets is arbitrary in the model.
- graph.js joins the two ends of an edge key with U+0000; ids that contain it, which PostgreSQL does not
  store, are told apart in the model.
- WashUsageDetector.js: scoring, grouping by asset and the thresholds of the detector.
- AttestationVerifier.js: the in-memory stores, which keep the same set and maximum as the tables.
- AttestationArchive.js: finding a batch by its on-chain id or its local id, and the two mirrors
  of on-chain outcomes, which touch no leaf.
- MeteringEngine.js: the stream token, capacity and fee gate, and the usage event it records.
- `Metering.Meter`: does not model a database error; a transaction that fails leaves the tables as
  they were, which is the run without it.
- Payload values that JSON cannot carry (`undefined`, functions, dates) and strings that are not
  well-formed Unicode, which the JSONB column refuses.
- Rows appended while `verify` reads its pages: the log is as it was at the first page.
- ErasureService.js rewrites hashed fields, after which the chain does not verify; nothing is
  claimed about a log that it has touched.
- MerkleAnchor.js: the timer, two anchorings at once, and the contract's own anchor list. The
  `entryCount` sent to the contract is the last number covered, not the count in the table.
- `SettlementSafety.RunPaysOnce`: says nothing about payments being made; when they are is in
  `BatchSettler.Settler.Conclude`. A crash between confirmation and withdrawal leaves a confirmed
  settlement unpaid until it is healed.
- BatchSettler.js: the choice of streams. The reset of their used calls is a step of the metering
  runs (`Metering.Event`), not of the settlement runs; `settleOffline` and `forceSettleStream`
  bypass the ledger, and only their reset is modelled.
- SettlementReconciler.js uses a logger it does not import, so a cycle that finds a divergence
  stops before healing. The model lets healing happen, which covers the runs without it.
- SettlementLedger.js: deleting old confirmed rows and health metrics; DeadLetterQueue.js: discard,
  which only rewrites the message, and the bulk forms, which repeat the single ones.
- Several settler processes over one ledger: each would recover the other's settlements.
- DisputeGame.js: progress of a game that only one side escalates, and games built in the middle of
  a round from stored fields.
- How malformed UTF-8 is decoded: evidence is decoded by any function that undoes the encoding of texts.
- Routes other than the on-demand anchor, validation, events, the Stellar SDK and the contracts.
