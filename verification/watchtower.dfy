/**
 backend/src/channels/Watchtower.js and FraudProofBuilder.js. Packages are kept in the clear:
 encryption at rest is not part of this model.
 */
module Watchtower {
  import opened Bytes
  import opened Outcomes
  import opened ChannelState
  import opened Revocation

  datatype Justice = Justice(party: Party, revocationSecret: seq<byte>, challenger: string)

  type Blobs = map<Digest, Justice>

  function Register(sha: Hash, blobs: Blobs, state: State, justice: Justice): Blobs
    requires Encodable(state.Bare())
  {
    blobs[CommitmentHash(sha, state.Bare()) := justice]
  }

  function FindJustice(sha: Hash, blobs: Blobs, state: State): Option<Justice>
    requires Encodable(state.Bare())
  {
    var hash := CommitmentHash(sha, state.Bare());
    if hash in blobs then Some(blobs[hash]) else None
  }

  class Watchtower {
    var blobs: Blobs

    constructor ()
      ensures blobs == map[]
    {
      blobs := map[];
    }

    /** `None` is the error thrown for a malformed state. */
    method DoRegister(sha: Hash, state: State, justice: Justice) returns (hash: Option<Digest>)
      modifies this
      ensures hash.Some? <==> Encodable(state.Bare())
      ensures hash.Some? ==>
                blobs == Register(sha, old(blobs), state, justice) && hash.value == CommitmentHash(sha, state.Bare())
      ensures hash.None? ==> blobs == old(blobs)
    {
      if !Encodable(state.Bare()) { return None; }
      var key := CommitmentHash(sha, state.Bare());
      blobs := blobs[key := justice];
      hash := Some(key);
    }
  }

  datatype Claim = Claim(channelId: int, version: Version, party: Party, revocationSecret: seq<byte>)

  /** FraudProofBuilder.build: the first revealed secret on record, party A's before party B's. */
  function BuildClaim(slots: Slots, channelId: int, version: Version): Option<Claim> {
    match RevealedSecretFor(slots, Slot(channelId, version.text, A))
    case Some(secret) => Some(Claim(channelId, version, A, secret))
    case None =>
      match RevealedSecretFor(slots, Slot(channelId, version.text, B))
      case Some(secret) => Some(Claim(channelId, version, B, secret))
      case None => None
  }

  ghost predicate OnFile(slots: Slots, slot: Slot, secret: seq<byte>) {
    slot in slots && slots[slot].revealed && slots[slot].secret == Some(secret)
  }

  /** For any store: a claim is for the channel and version asked about, and carries a revealed secret on file. */
  lemma ClaimIsOnFile(slots: Slots, channelId: int, version: Version)
    ensures var claim, a, b :=
              BuildClaim(slots, channelId, version), Slot(channelId, version.text, A), Slot(channelId, version.text, B);
            && (forall c :: claim == Some(c) ==>
                  && c.channelId == channelId && c.version == version
                  && OnFile(slots, Slot(channelId, version.text, c.party), c.revocationSecret)
                  && (c.party == B ==> forall secret :: !OnFile(slots, a, secret)))
            && (claim == None <==> forall secret :: !OnFile(slots, a, secret) && !OnFile(slots, b, secret))
  {
    var a, b := Slot(channelId, version.text, A), Slot(channelId, version.text, B);
    if a in slots && slots[a].revealed && slots[a].secret.Some? { assert OnFile(slots, a, slots[a].secret.value); }
    if b in slots && slots[b].revealed && slots[b].secret.Some? { assert OnFile(slots, b, slots[b].secret.value); }
  }
}
