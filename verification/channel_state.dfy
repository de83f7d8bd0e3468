/**
 backend/src/channels/canonical.js and ChannelState.js: the dual-signed, versioned balance pair.

 A signature is modelled as the pair of its key and its message: it verifies exactly when that
 key signed those bytes. Who may hold which signature is a matter of the runs (ChannelSafety).
 */
module ChannelState {
  import opened Bytes
  import opened Outcomes
  import AttestationCanonical

  const STATE_PREIMAGE_BYTES := 96
  const DOMAIN_CHANNEL_STATE: byte := 0x10

  datatype Party = A | B {
    function Other(): Party {
      if A? then B else A
    }
  }

  /** A version as it travels: `num` is Number(version), `text` is String(version). */
  datatype Version = Version(num: int, text: string)

  type Key = nat
  datatype Signature = Signature(key: Key, message: seq<byte>)

  /** The fields both parties sign. */
  datatype Body = Body(
    channelId: int, version: int, balanceA: int, balanceB: int, commitA: seq<byte>, commitB: seq<byte>) {
    function Commit(party: Party): seq<byte> {
      if party.A? then commitA else commitB
    }
  }

  datatype State = State(
    channelId: int,
    version: Version,
    balanceA: int,
    balanceB: int,
    commitA: seq<byte>,
    commitB: seq<byte>,
    sigA: Option<Signature>,
    sigB: Option<Signature>)
  {
    /** The state without its signatures. */
    function Bare(): Body {
      Body(channelId, version.num, balanceA, balanceB, commitA, commitB)
    }
  }

  predicate Encodable(b: Body) {
    && IsU64(b.channelId) && IsU64(b.version) && IsU64(b.balanceA) && IsU64(b.balanceB)
    && |b.commitA| == |b.commitB| == HASH_BYTES
  }

  function StatePreimage(b: Body): (p: seq<byte>)
    requires Encodable(b)
    ensures |p| == STATE_PREIMAGE_BYTES
  {
    U64(b.channelId) + U64(b.version) + U64(b.balanceA) + U64(b.balanceB) + b.commitA + b.commitB
  }

  function SigningMessage(b: Body): (m: seq<byte>)
    requires Encodable(b)
    ensures |m| == 1 + STATE_PREIMAGE_BYTES && m[0] == DOMAIN_CHANNEL_STATE
  {
    [DOMAIN_CHANNEL_STATE] + StatePreimage(b)
  }

  /** The key under which the watchtower files a package. */
  function CommitmentHash(sha: Hash, b: Body): Digest
    requires Encodable(b)
  {
    sha(SigningMessage(b))
  }

  method EncodeStatePreimage(b: Body) returns (r: Option<seq<byte>>)
    ensures r == if Encodable(b) then Some(StatePreimage(b)) else None
  {
    var buf := new byte[STATE_PREIMAGE_BYTES](_ => 0);
    var ok := AttestationCanonical.WriteU64BE(buf, b.channelId, 0);
    if !ok { return None; }
    assert buf[..8] == U64(b.channelId);
    ok := AttestationCanonical.WriteU64BE(buf, b.version, 8);
    if !ok { return None; }
    assert buf[..16] == U64(b.channelId) + U64(b.version);
    ok := AttestationCanonical.WriteU64BE(buf, b.balanceA, 16);
    if !ok { return None; }
    assert buf[..24] == U64(b.channelId) + U64(b.version) + U64(b.balanceA);
    ok := AttestationCanonical.WriteU64BE(buf, b.balanceB, 24);
    if !ok { return None; }
    assert buf[..32] == U64(b.channelId) + U64(b.version) + U64(b.balanceA) + U64(b.balanceB);
    ok := AttestationCanonical.CopyFixed(buf, b.commitA, 32);
    if !ok { return None; }
    assert buf[..64] == U64(b.channelId) + U64(b.version) + U64(b.balanceA) + U64(b.balanceB) + b.commitA;
    ok := AttestationCanonical.CopyFixed(buf, b.commitB, 64);
    if !ok { return None; }
    assert buf[..] == StatePreimage(b);
    r := Some(buf[..]);
  }

  function DecodeStatePreimage(p: seq<byte>): Option<Body> {
    if |p| != STATE_PREIMAGE_BYTES then None
    else Some(Body(
                ToDouble(FromBigEndian(p[0..8])),
                ToDouble(FromBigEndian(p[8..16])),
                ToDouble(FromBigEndian(p[16..24])),
                ToDouble(FromBigEndian(p[24..32])),
                p[32..64],
                p[64..96]))
  }

  lemma PreimageSlices(b: Body)
    requires Encodable(b)
    ensures var p := StatePreimage(b);
            && p[0..8] == U64(b.channelId) && p[8..16] == U64(b.version)
            && p[16..24] == U64(b.balanceA) && p[24..32] == U64(b.balanceB)
            && p[32..64] == b.commitA && p[64..96] == b.commitB
  {
  }

  lemma IntegersRoundTrip(b: Body)
    requires Encodable(b)
    ensures FromBigEndian(U64(b.channelId)) == b.channelId && FromBigEndian(U64(b.version)) == b.version
    ensures FromBigEndian(U64(b.balanceA)) == b.balanceA && FromBigEndian(U64(b.balanceB)) == b.balanceB
  {
    U64RoundTrip(b.channelId);
    U64RoundTrip(b.version);
    U64RoundTrip(b.balanceA);
    U64RoundTrip(b.balanceB);
  }

  /** Decoding undoes encoding exactly when every integer survives a Number. */
  lemma StateRoundTrip(b: Body)
    requires Encodable(b)
    ensures DecodeStatePreimage(StatePreimage(b)) == Some(b) <==>
            ToDouble(b.channelId) == b.channelId && ToDouble(b.version) == b.version &&
            ToDouble(b.balanceA) == b.balanceA && ToDouble(b.balanceB) == b.balanceB
  {
    PreimageSlices(b);
    IntegersRoundTrip(b);
  }

  lemma SigningMessageInjective(b: Body, c: Body)
    requires Encodable(b) && Encodable(c) && SigningMessage(b) == SigningMessage(c)
    ensures b == c
  {
    assert StatePreimage(b) == SigningMessage(b)[1..] && StatePreimage(c) == SigningMessage(c)[1..];
    PreimageSlices(b);
    PreimageSlices(c);
    IntegersRoundTrip(b);
    IntegersRoundTrip(c);
  }

  /** No message signed or hashed in one role can be read as a message of another role. */
  lemma DomainsAreDisjoint(
    b: Body, f: AttestationCanonical.Fields, x: Digest, y: Digest, streamId: nat, root: Digest, callCount: nat)
    requires Encodable(b) && AttestationCanonical.Encodable(f) && IsU64(streamId) && IsU64(callCount)
    ensures var messages :=
              [SigningMessage(b), AttestationCanonical.SigningMessage(f), AttestationCanonical.InternalMessage(x, y),
                             AttestationCanonical.BatchCommitmentMessage(streamId, root, callCount)];
            forall i, j :: 0 <= i < j < |messages| ==> messages[i] != messages[j]
  {
    var messages :=
      [SigningMessage(b), AttestationCanonical.SigningMessage(f), AttestationCanonical.InternalMessage(x, y),
                     AttestationCanonical.BatchCommitmentMessage(streamId, root, callCount)];
    forall i, j | 0 <= i < j < |messages| ensures messages[i] != messages[j] {
      assert messages[i][0] != messages[j][0];
    }
  }

  // ----- building, signing and verifying a state

  function CreateState(
    channelId: int, version: Version, balanceA: int, balanceB: int, commitA: seq<byte>, commitB: seq<byte>)
    : (r: Option<State>)
    ensures r.Some? <==> Encodable(Body(channelId, version.num, balanceA, balanceB, commitA, commitB))
    ensures r.Some? ==> r.value.Bare() == Body(channelId, version.num, balanceA, balanceB, commitA, commitB)
    ensures r.Some? ==> r.value.version == version && r.value.sigA.None? && r.value.sigB.None?
  {
    if Encodable(Body(channelId, version.num, balanceA, balanceB, commitA, commitB))
    then Some(State(channelId, version, balanceA, balanceB, commitA, commitB, None, None))
    else None
  }

  function Sign(b: Body, key: Key): Signature
    requires Encodable(b)
  {
    Signature(key, SigningMessage(b))
  }

  function WithSignature(s: State, party: Party, signature: Signature): State {
    if party.A? then s.(sigA := Some(signature)) else s.(sigB := Some(signature))
  }

  datatype Reason = OK | MALFORMED | MISSING_SIGNATURE_A | MISSING_SIGNATURE_B | BAD_SIGNATURE_A | BAD_SIGNATURE_B

  /** The first check that fails is the reason. */
  function Verify(s: State, keyA: Key, keyB: Key): (reason: Reason)
    ensures reason.OK? <==>
              Encodable(s.Bare()) && s.sigA == Some(Sign(s.Bare(), keyA)) && s.sigB == Some(Sign(s.Bare(), keyB))
    ensures reason.MALFORMED? <==> !Encodable(s.Bare())
    ensures reason.MISSING_SIGNATURE_A? <==> Encodable(s.Bare()) && s.sigA.None?
    ensures reason.MISSING_SIGNATURE_B? <==> Encodable(s.Bare()) && s.sigA.Some? && s.sigB.None?
    ensures reason.BAD_SIGNATURE_A? <==>
              Encodable(s.Bare()) && s.sigA.Some? && s.sigB.Some? && s.sigA.value != Sign(s.Bare(), keyA)
    ensures reason.BAD_SIGNATURE_B? <==>
              Encodable(s.Bare()) && s.sigA == Some(Sign(s.Bare(), keyA)) && s.sigB.Some? &&
                s.sigB.value != Sign(s.Bare(), keyB)
  {
    if !Encodable(s.Bare()) then MALFORMED
    else if s.sigA.None? then MISSING_SIGNATURE_A
    else if s.sigB.None? then MISSING_SIGNATURE_B
    else if s.sigA.value != Signature(keyA, SigningMessage(s.Bare())) then BAD_SIGNATURE_A
    else if s.sigB.value != Signature(keyB, SigningMessage(s.Bare())) then BAD_SIGNATURE_B
    else OK
  }

  predicate SharesSignature(body: Body, keyA: Key, keyB: Key, other: State)
    requires Encodable(body)
  {
    other.sigA == Some(Sign(body, keyA)) || other.sigB == Some(Sign(body, keyB))
  }

  /**
   A created state becomes valid by the signatures of both parties over its own fields, attached in
   any order, and by nothing else; and no other fields are valid with a signature made for it.
   */
  lemma CreatedStateVerifies(created: State, keyA: Key, keyB: Key, sigA: Signature, sigB: Signature, other: State)
    requires CreateState(created.channelId, created.version, created.balanceA, created.balanceB, created.commitA,
               created.commitB) == Some(created)
    ensures var body, halfSigned := created.Bare(), WithSignature(created, A, sigA);
            var signed := WithSignature(halfSigned, B, sigB);
            && Verify(created, keyA, keyB) == MISSING_SIGNATURE_A &&
                 Verify(halfSigned, keyA, keyB) == MISSING_SIGNATURE_B
            && signed == WithSignature(WithSignature(created, B, sigB), A, sigA) && signed.Bare() == body
            && (Verify(signed, keyA, keyB) == OK <==> sigA == Sign(body, keyA) && sigB == Sign(body, keyB))
    ensures Verify(other, keyA, keyB) == OK && SharesSignature(created.Bare(), keyA, keyB, other) ==>
              other.Bare() == created.Bare()
  {
    if Verify(other, keyA, keyB) == OK && SharesSignature(created.Bare(), keyA, keyB, other) {
      SigningMessageInjective(other.Bare(), created.Bare());
    }
  }

  /** `None` is the error thrown for states of different channels. */
  function CompareVersions(a: State, b: State): Option<int> {
    if a.channelId != b.channelId then None
    else Some(if a.version.num == b.version.num then 0 else if a.version.num > b.version.num then 1 else -1)
  }

  function Supersedes(candidate: State, current: State, keyA: Key, keyB: Key): Option<bool> {
    match CompareVersions(candidate, current)
    case None => None
    case Some(order) => Some(order > 0 && Verify(candidate, keyA, keyB).OK?)
  }

  /** States of one channel are compared by the numbers of their versions. */
  lemma ComparesVersions(a: State, b: State)
    ensures CompareVersions(a, b) == None <==> a.channelId != b.channelId
    ensures CompareVersions(a, b).Some? ==>
              && (CompareVersions(a, b) == Some(0) <==> a.version.num == b.version.num)
              && (CompareVersions(a, b) == Some(1) <==> a.version.num > b.version.num)
              && (CompareVersions(a, b) == Some(-1) <==> a.version.num < b.version.num)
  {
  }

  /** A state supersedes another of its channel exactly when its number is higher and both parties signed it. */
  lemma SupersedesExactly(candidate: State, current: State, keyA: Key, keyB: Key)
    ensures Supersedes(candidate, current, keyA, keyB) == None <==> candidate.channelId != current.channelId
    ensures Supersedes(candidate, current, keyA, keyB) == Some(true) <==>
              && candidate.channelId == current.channelId && current.version.num < candidate.version.num
              && Verify(candidate, keyA, keyB) == OK
    ensures Supersedes(candidate, current, keyA, keyB) == Some(true) ==>
              Supersedes(current, candidate, keyA, keyB) == Some(false)
  {
  }
}
