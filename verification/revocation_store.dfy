/**
 backend/src/channels/RevocationStore.js: commit/reveal ledger for revocation secrets.

 Slots are keyed by the *text* of a version. The empty slot objects that lookups leave behind
 are not modelled: no operation can tell them from absent ones.
 */
module Revocation {
  import opened Bytes
  import opened Outcomes
  import opened ChannelState

  datatype Slot = Slot(channelId: int, text: string, party: Party)

  datatype Entry = Entry(secret: Option<seq<byte>>, commitmentHash: seq<byte>, revealed: bool)

  type Slots = map<Slot, Entry>

  datatype StoreError = CommitmentExists | NoCommitment | NotOurs | SecretMismatch | UnknownParty | NoSuchEntry

  /** A party as named in a message, `Named(None)` being anything but "a" or "b". */
  type PartyName = Option<Party>

  // ----- the operations on the map of slots

  function Commit(sha: Hash, slots: Slots, slot: Slot, secret: seq<byte>): Result<Slots, StoreError> {
    if slot in slots then Err(CommitmentExists)
    else Ok(slots[slot := Entry(Some(secret), sha(secret), false)])
  }

  function RecordCommitment(
    slots: Slots, channelId: int, text: string, party: PartyName, hash: seq<byte>): Result<Slots, StoreError>
  {
    if party.None? then Err(UnknownParty)
    else if Slot(channelId, text, party.value) in slots then Err(CommitmentExists)
    else Ok(slots[Slot(channelId, text, party.value) := Entry(None, hash, false)])
  }

  function Reveal(slots: Slots, slot: Slot): Result<(Slots, seq<byte>), StoreError> {
    if slot !in slots then Err(NoCommitment)
    else if slots[slot].secret.None? then Err(NotOurs)
    else Ok((slots[slot := slots[slot].(revealed := true)], slots[slot].secret.value))
  }

  predicate OpensSlot(sha: Hash, slots: Slots, slot: Slot, secret: seq<byte>) {
    slot in slots && sha(secret) == slots[slot].commitmentHash
  }

  /** The secret opens a commitment of one party or the other. */
  predicate Opens(sha: Hash, slots: Slots, channelId: int, text: string, secret: seq<byte>) {
    exists party: Party :: OpensSlot(sha, slots, Slot(channelId, text, party), secret)
  }

  /** Accepts a secret that opens either commitment, but files it under `party`. */
  function RecordRevealedSecret(
    sha: Hash, slots: Slots, channelId: int, text: string, party: PartyName, secret: seq<byte>)
    : Result<Slots, StoreError>
  {
    if party.None? then Err(UnknownParty)
    else if !Opens(sha, slots, channelId, text, secret) then Err(SecretMismatch)
    else
      var slot := Slot(channelId, text, party.value);
      if slot !in slots then Err(NoSuchEntry)
      else Ok(slots[slot := slots[slot].(secret := Some(secret), revealed := true)])
  }

  function RevealedSecretFor(slots: Slots, slot: Slot): Option<seq<byte>> {
    if slot in slots && slots[slot].revealed then slots[slot].secret else None
  }

  /** What no operation ever does to a commitment once it is on record. */
  ghost predicate KeepsCommitments(before: Slots, after: Slots) {
    forall slot :: slot in before ==>
      slot in after && after[slot].commitmentHash == before[slot].commitmentHash &&
        (before[slot].revealed ==> after[slot].revealed)
  }

  class RevocationStore {
    var slots: Slots

    constructor ()
      ensures slots == map[]
    {
      slots := map[];
    }

    /** `secret` is the fresh random secret; only its hash is returned. */
    method DoCommit(sha: Hash, channelId: int, text: string, party: Party, secret: seq<byte>)
      returns (r: Result<Digest, StoreError>)
      modifies this
      ensures match Commit(sha, old(slots), Slot(channelId, text, party), secret)
              case Ok(after) => slots == after && r == Ok(sha(secret))
              case Err(e) => slots == old(slots) && r == Err(e)
      ensures KeepsCommitments(old(slots), slots)
    {
      var slot := Slot(channelId, text, party);
      if slot in slots { return Err(CommitmentExists); }
      var commitmentHash := sha(secret);
      slots := slots[slot := Entry(Some(secret), commitmentHash, false)];
      r := Ok(commitmentHash);
    }

    method DoReveal(channelId: int, text: string, party: Party) returns (r: Result<seq<byte>, StoreError>)
      modifies this
      ensures match Reveal(old(slots), Slot(channelId, text, party))
              case Ok((after, secret)) => slots == after && r == Ok(secret)
              case Err(e) => slots == old(slots) && r == Err(e)
      ensures KeepsCommitments(old(slots), slots)
    {
      var slot := Slot(channelId, text, party);
      if slot !in slots { return Err(NoCommitment); }
      if slots[slot].secret.None? { return Err(NotOurs); }
      slots := slots[slot := slots[slot].(revealed := true)];
      r := Ok(slots[slot].secret.value);
    }

    method DoRecordCommitment(channelId: int, text: string, party: PartyName, hash: seq<byte>)
      returns (r: Result<(), StoreError>)
      modifies this
      ensures match RecordCommitment(old(slots), channelId, text, party, hash)
              case Ok(after) => slots == after && r == Ok(())
              case Err(e) => slots == old(slots) && r == Err(e)
      ensures KeepsCommitments(old(slots), slots)
    {
      if party.None? { return Err(UnknownParty); }
      var slot := Slot(channelId, text, party.value);
      if slot in slots { return Err(CommitmentExists); }
      slots := slots[slot := Entry(None, hash, false)];
      r := Ok(());
    }

    /** The party whose commitment `secret` opens, party A first. */
    method VerifySecret(sha: Hash, channelId: int, text: string, secret: seq<byte>) returns (party: Option<Party>)
      ensures party.Some? <==> Opens(sha, slots, channelId, text, secret)
      ensures party.Some? ==> OpensSlot(sha, slots, Slot(channelId, text, party.value), secret)
      ensures party == Some(B) ==> !OpensSlot(sha, slots, Slot(channelId, text, A), secret)
    {
      var parties := [A, B];
      for i := 0 to 2
        invariant forall j :: 0 <= j < i ==> !OpensSlot(sha, slots, Slot(channelId, text, parties[j]), secret)
      {
        if OpensSlot(sha, slots, Slot(channelId, text, parties[i]), secret) {
          assert i == 1 ==> !OpensSlot(sha, slots, Slot(channelId, text, parties[0]), secret);
          return Some(parties[i]);
        }
      }
      forall p: Party ensures !OpensSlot(sha, slots, Slot(channelId, text, p), secret) {
        assert !OpensSlot(sha, slots, Slot(channelId, text, parties[if p.A? then 0 else 1]), secret);
      }
      party := None;
    }

    method DoRecordRevealedSecret(sha: Hash, channelId: int, text: string, party: PartyName, secret: seq<byte>)
      returns (r: Result<(), StoreError>)
      modifies this
      ensures match RecordRevealedSecret(sha, old(slots), channelId, text, party, secret)
              case Ok(after) => slots == after && r == Ok(())
              case Err(e) => slots == old(slots) && r == Err(e)
      ensures KeepsCommitments(old(slots), slots)
    {
      if party.None? { return Err(UnknownParty); }
      var opener := VerifySecret(sha, channelId, text, secret);
      if opener.None? { return Err(SecretMismatch); }
      var slot := Slot(channelId, text, party.value);
      if slot !in slots { return Err(NoSuchEntry); }
      slots := slots[slot := slots[slot].(secret := Some(secret), revealed := true)];
      r := Ok(());
    }
  }
}
