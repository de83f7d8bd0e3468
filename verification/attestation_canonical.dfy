/** backend/src/attestation/canonical.js: the bytes that are signed and hashed. */
module AttestationCanonical {
  import opened Bytes
  import opened Outcomes

  const LEAF_PREIMAGE_BYTES := 120
  const DOMAIN_LEAF: byte := 0x00
  const DOMAIN_INTERNAL: byte := 0x01
  const DOMAIN_BATCH: byte := 0x02

  /** The signed part of an attestation. Integers may be anything a caller passes in. */
  datatype Fields = Fields(
    streamId: int,
    callIndex: int,
    requestHash: seq<byte>,
    responseHash: seq<byte>,
    timestamp: int,
    nonce: seq<byte>)

  /** What `toU64` and `toFixedBuffer` let through. */
  predicate Encodable(f: Fields) {
    && IsU64(f.streamId) && IsU64(f.callIndex) && IsU64(f.timestamp)
    && |f.requestHash| == |f.responseHash| == |f.nonce| == HASH_BYTES
  }

  function LeafPreimage(f: Fields): (b: seq<byte>)
    requires Encodable(f)
    ensures |b| == LEAF_PREIMAGE_BYTES
  {
    U64(f.streamId) + U64(f.callIndex) + f.requestHash + f.responseHash + U64(f.timestamp) + f.nonce
  }

  /** The message the seller signs, and the preimage of the leaf hash. */
  function SigningMessage(f: Fields): (b: seq<byte>)
    requires Encodable(f)
    ensures |b| == 1 + LEAF_PREIMAGE_BYTES && b[0] == DOMAIN_LEAF
  {
    [DOMAIN_LEAF] + LeafPreimage(f)
  }

  function LeafHash(sha: Hash, f: Fields): Digest
    requires Encodable(f)
  {
    sha(SigningMessage(f))
  }

  /** The smaller digest comes first, so the sides are forgotten. */
  function InternalMessage(a: Digest, b: Digest): (m: seq<byte>)
    ensures |m| == 1 + 2 * HASH_BYTES && m[0] == DOMAIN_INTERNAL
  {
    [DOMAIN_INTERNAL] + (if LexLeq(a, b) then a + b else b + a)
  }

  function HashInternal(sha: Hash, a: Digest, b: Digest): Digest {
    sha(InternalMessage(a, b))
  }

  function BatchCommitmentMessage(streamId: nat, root: Digest, callCount: nat): (m: seq<byte>)
    requires IsU64(streamId) && IsU64(callCount)
    ensures |m| == 1 + 8 + HASH_BYTES + 8 && m[0] == DOMAIN_BATCH
  {
    [DOMAIN_BATCH] + U64(streamId) + root + U64(callCount)
  }

  // ----- filling the buffer in place

  method Put(buf: array<byte>, bytes: seq<byte>, offset: nat)
    requires offset + |bytes| <= buf.Length
    modifies buf
    ensures buf[..] == old(buf[..offset]) + bytes + old(buf[offset + |bytes|..])
  {
    forall i | 0 <= i < |bytes| {
      buf[offset + i] := bytes[i];
    }
  }

  method WriteU64BE(buf: array<byte>, value: int, offset: nat) returns (ok: bool)
    requires offset + 8 <= buf.Length
    modifies buf
    ensures ok <==> IsU64(value)
    ensures ok ==> buf[..] == old(buf[..offset]) + U64(value) + old(buf[offset + 8..])
    ensures !ok ==> buf[..] == old(buf[..])
  {
    ok := IsU64(value);
    if ok {
      Put(buf, U64(value), offset);
    }
  }

  method CopyFixed(buf: array<byte>, value: seq<byte>, offset: nat) returns (ok: bool)
    requires offset + HASH_BYTES <= buf.Length
    modifies buf
    ensures ok <==> |value| == HASH_BYTES
    ensures ok ==> buf[..] == old(buf[..offset]) + value + old(buf[offset + HASH_BYTES..])
    ensures !ok ==> buf[..] == old(buf[..])
  {
    ok := |value| == HASH_BYTES;
    if ok {
      Put(buf, value, offset);
    }
  }

  /** Writes field after field at its offset; `None` is the error thrown for a bad field. */
  method EncodeLeafPreimage(f: Fields) returns (r: Option<seq<byte>>)
    ensures r == if Encodable(f) then Some(LeafPreimage(f)) else None
  {
    var buf := new byte[LEAF_PREIMAGE_BYTES](_ => 0);
    var ok := WriteU64BE(buf, f.streamId, 0);
    if !ok { return None; }
    assert buf[..8] == U64(f.streamId);
    ok := WriteU64BE(buf, f.callIndex, 8);
    if !ok { return None; }
    assert buf[..16] == U64(f.streamId) + U64(f.callIndex);
    ok := CopyFixed(buf, f.requestHash, 16);
    if !ok { return None; }
    assert buf[..48] == U64(f.streamId) + U64(f.callIndex) + f.requestHash;
    ok := CopyFixed(buf, f.responseHash, 48);
    if !ok { return None; }
    assert buf[..80] == U64(f.streamId) + U64(f.callIndex) + f.requestHash + f.responseHash;
    ok := WriteU64BE(buf, f.timestamp, 80);
    if !ok { return None; }
    assert buf[..88] == U64(f.streamId) + U64(f.callIndex) + f.requestHash + f.responseHash + U64(f.timestamp);
    ok := CopyFixed(buf, f.nonce, 88);
    if !ok { return None; }
    assert buf[..] == LeafPreimage(f);
    r := Some(buf[..]);
  }

  /** Reads the fields back; every integer passes through a JavaScript Number. */
  function DecodeLeafPreimage(b: seq<byte>): Option<Fields> {
    if |b| != LEAF_PREIMAGE_BYTES then None
    else Some(Fields(
                ToDouble(FromBigEndian(b[0..8])),
                ToDouble(FromBigEndian(b[8..16])),
                b[16..48],
                b[48..80],
                ToDouble(FromBigEndian(b[80..88])),
                b[88..120]))
  }

  // ----- round trip, injectivity

  lemma PreimageSlices(f: Fields)
    requires Encodable(f)
    ensures var b := LeafPreimage(f);
            && b[0..8] == U64(f.streamId) && b[8..16] == U64(f.callIndex)
            && b[16..48] == f.requestHash && b[48..80] == f.responseHash
            && b[80..88] == U64(f.timestamp) && b[88..120] == f.nonce
  {
  }

  /** Decoding undoes encoding exactly when every integer survives a Number. */
  lemma LeafRoundTrip(f: Fields)
    requires Encodable(f)
    ensures DecodeLeafPreimage(LeafPreimage(f)) == Some(f) <==>
            ToDouble(f.streamId) == f.streamId && ToDouble(f.callIndex) == f.callIndex &&
              ToDouble(f.timestamp) == f.timestamp
    ensures f.streamId <= TWO_TO_THE_53 && f.callIndex <= TWO_TO_THE_53 && f.timestamp <= TWO_TO_THE_53 ==>
              DecodeLeafPreimage(LeafPreimage(f)) == Some(f)
  {
    PreimageSlices(f);
    U64RoundTrip(f.streamId);
    U64RoundTrip(f.callIndex);
    U64RoundTrip(f.timestamp);
  }

  /** 2^53 + 1 is a u64 that does not come back. */
  lemma LeafRoundTripLosesPrecision(f: Fields)
    requires Encodable(f) && f.streamId == TWO_TO_THE_53 + 1
    ensures DecodeLeafPreimage(LeafPreimage(f)) != Some(f)
  {
    LeafRoundTrip(f);
    assert Ulp(f.streamId / 2) == 1 && Ulp(f.streamId) == 2;
  }

  /** The encoding itself loses nothing, over the whole u64 range. */
  lemma SigningMessageInjective(f: Fields, g: Fields)
    requires Encodable(f) && Encodable(g)
    requires SigningMessage(f) == SigningMessage(g)
    ensures f == g
  {
    assert LeafPreimage(f) == SigningMessage(f)[1..] && LeafPreimage(g) == SigningMessage(g)[1..];
    PreimageSlices(f);
    PreimageSlices(g);
    U64RoundTrip(f.streamId);
    U64RoundTrip(g.streamId);
    U64RoundTrip(f.callIndex);
    U64RoundTrip(g.callIndex);
    U64RoundTrip(f.timestamp);
    U64RoundTrip(g.timestamp);
  }

  lemma BatchCommitmentInjective(s: nat, r: Digest, n: nat, s': nat, r': Digest, n': nat)
    requires IsU64(s) && IsU64(n) && IsU64(s') && IsU64(n')
    requires BatchCommitmentMessage(s, r, n) == BatchCommitmentMessage(s', r', n')
    ensures s == s' && r == r' && n == n'
  {
    var m, m' := BatchCommitmentMessage(s, r, n), BatchCommitmentMessage(s', r', n');
    assert m[1..9] == U64(s) && m[9..41] == r && m[41..49] == U64(n);
    assert m'[1..9] == U64(s') && m'[9..41] == r' && m'[41..49] == U64(n');
    U64RoundTrip(s);
    U64RoundTrip(s');
    U64RoundTrip(n);
    U64RoundTrip(n');
  }

  /** The message of a pair is its two digests, and the smaller number in front. */
  lemma SmallerDigestFirst(a: Digest, b: Digest)
    ensures var m := InternalMessage(a, b);
            && ((m[1..33] == a && m[33..65] == b) || (m[1..33] == b && m[33..65] == a))
            && FromBigEndian(m[1..33]) <= FromBigEndian(m[33..65])
  {
    LexLeqIsNumeric(a, b);
    var m := InternalMessage(a, b);
    assert m[1..33] == (if LexLeq(a, b) then a else b) && m[33..65] == (if LexLeq(a, b) then b else a);
  }

  /** What an internal hash still knows about its children: the unordered pair. */
  lemma InternalMessageDetermines(a: Digest, b: Digest, c: Digest, d: Digest)
    ensures InternalMessage(a, b) == InternalMessage(b, a)
    ensures InternalMessage(a, b) == InternalMessage(c, d) <==> (a == c && b == d) || (a == d && b == c)
  {
    LexLeqTotal(a, b);
    LexLeqTotal(c, d);
    var m, m' := InternalMessage(a, b), InternalMessage(c, d);
    assert m[1..33] == (if LexLeq(a, b) then a else b) && m[33..] == (if LexLeq(a, b) then b else a);
    assert m'[1..33] == (if LexLeq(c, d) then c else d) && m'[33..] == (if LexLeq(c, d) then d else c);
  }
}
