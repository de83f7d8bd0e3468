/** backend/src/attestation/AttestationVerifier.js, over the used_nonces table of attestationRepository.js. */
module AttestationVerifier {
  import opened Bytes
  import opened Outcomes
  import opened AttestationCanonical
  import opened MerkleBatchBuilder

  datatype Reason =
    | Malformed | StreamMismatch | SignerMismatch | BadSignature | NonceReused | IndexNotMonotonic | ClockSkew

  /** `Thrown` is the error the encoder throws for a number beyond 64 bits. */
  datatype Outcome = Passed | Rejected(reason: Reason) | Thrown

  /** `verifies(key, message, signature)` is Ed25519; nothing is assumed of it. */
  datatype Rules = Rules(verifies: (string, seq<byte>, seq<byte>) -> bool, maxClockSkewSeconds: int)

  /** An absent signer is the empty text; an absent stream is `None`. */
  datatype Expectation = Expectation(signer: string, streamId: Option<int>, now: int)

  predicate VerifySignatureRaw(rules: Rules, message: seq<byte>, signature: seq<byte>, key: string) {
    |signature| == SIGNATURE_BYTES && rules.verifies(key, message, signature)
  }

  /** A signature of another length than Ed25519 has is refused before it is looked at. */
  lemma RawSignatureExactly(rules: Rules, message: seq<byte>, signature: seq<byte>, key: string)
    ensures !VerifySignatureRaw(rules, message, signature, key) <==>
            |signature| != 64 || !rules.verifies(key, message, signature)
  {
  }

  predicate WellShaped(att: Attestation) {
    && att.fields.streamId >= 0 && att.fields.callIndex >= 0 && att.fields.timestamp >= 0
    && |att.fields.requestHash| == HASH_BYTES && |att.fields.responseHash| == HASH_BYTES &&
         |att.fields.nonce| == HASH_BYTES
    && |att.signature| == SIGNATURE_BYTES
  }

  function SignerFor(att: Attestation, wanted: Expectation): string {
    if wanted.signer != "" then wanted.signer else att.signer
  }

  /** How far the attestation is dated ahead of the clock. */
  function Drift(att: Attestation, wanted: Expectation): int {
    AsNumber(AsNumber(att.fields.timestamp) - wanted.now)
  }

  /** The checks that touch no table. */
  function Check(rules: Rules, att: Attestation, wanted: Expectation): Outcome {
    if !WellShaped(att) then Rejected(Malformed)
    else if wanted.streamId.Some? && StreamNumber(att) != AsNumber(wanted.streamId.value) then Rejected(StreamMismatch)
    else if SignerFor(att, wanted) == "" then Rejected(Malformed)
    else if wanted.signer != "" && att.signer != "" && att.signer != wanted.signer then Rejected(SignerMismatch)
    else if !Encodable(att.fields) then Thrown
    else if !VerifySignatureRaw(rules, SigningMessage(att.fields), att.signature, SignerFor(att, wanted))
      then Rejected(BadSignature)
    else if rules.maxClockSkewSeconds > 0 && Drift(att, wanted) > rules.maxClockSkewSeconds then Rejected(ClockSkew)
    else Passed
  }

  /** The signer that is asked for, or else the one that is named, and they agree if both are given. */
  predicate SignersAgree(att: Attestation, wanted: Expectation, signer: string) {
    signer != "" && (wanted.signer == "" || wanted.signer == signer) && (att.signer == "" || att.signer == signer) &&
      (signer == wanted.signer || signer == att.signer)
  }

  predicate ForStream(att: Attestation, wanted: Expectation) {
    wanted.streamId.Some? ==> StreamNumber(att) == AsNumber(wanted.streamId.value)
  }

  predicate InTime(rules: Rules, att: Attestation, wanted: Expectation) {
    rules.maxClockSkewSeconds > 0 ==> Drift(att, wanted) <= rules.maxClockSkewSeconds
  }

  /**
   The checks pass exactly for a well-formed attestation of the stream, signed by the one signer that
   is asked for or named, and not dated further ahead than the clocks may differ. Each reason is true.
   */
  lemma CheckExactly(rules: Rules, att: Attestation, wanted: Expectation)
    ensures Check(rules, att, wanted) == Passed <==>
              && WellShaped(att) && ForStream(att, wanted) && Encodable(att.fields) && InTime(rules, att, wanted)
              && exists signer :: SignersAgree(att, wanted, signer) &&
                   VerifySignatureRaw(rules, SigningMessage(att.fields), att.signature, signer)
    ensures match Check(rules, att, wanted)
            case Passed => true
            case Thrown => WellShaped(att) && !Encodable(att.fields)
            case Rejected(Malformed) => !WellShaped(att) || (wanted.signer == "" && att.signer == "")
            case Rejected(StreamMismatch) => !ForStream(att, wanted)
            case Rejected(SignerMismatch) =>
              wanted.signer != att.signer && forall signer :: !SignersAgree(att, wanted, signer)
            case Rejected(BadSignature) =>
              Encodable(att.fields) && forall signer :: SignersAgree(att, wanted, signer) ==>
              !VerifySignatureRaw(rules, SigningMessage(att.fields), att.signature, signer)
            case Rejected(ClockSkew) => !InTime(rules, att, wanted)
            case Rejected(_) => false
  {
    if wanted.signer != "" || att.signer != "" {
      assert wanted.signer == "" || att.signer == "" || att.signer == wanted.signer ==>
          SignersAgree(att, wanted, SignerFor(att, wanted));
    }
  }

  /** For times below 2^53, the drift is how many seconds the attestation is dated ahead. */
  lemma DriftIsDifference(att: Attestation, wanted: Expectation)
    requires 0 <= att.fields.timestamp <= TWO_TO_THE_53 && 0 <= wanted.now <= TWO_TO_THE_53
    ensures Drift(att, wanted) == att.fields.timestamp - wanted.now
  {
  }

  // ----- freshness

  /** A used_nonces row of one stream. */
  datatype Used = Used(nonce: seq<byte>, callIndex: int)

  predicate NonceUsed(used: seq<Used>, nonce: seq<byte>) {
    exists i :: 0 <= i < |used| && used[i].nonce == nonce
  }

  /** MAX(call_index); none for an empty table. */
  function HighestIndex(used: seq<Used>): Option<int> {
    if used == [] then None else
      var before, last := HighestIndex(used[..|used| - 1]), used[|used| - 1].callIndex;
      Some(if before.Some? && before.value > last then before.value else last)
  }

  lemma {:induction false} HighestIsMax(used: seq<Used>)
    ensures used == [] <==> HighestIndex(used) == None
    ensures forall i :: 0 <= i < |used| ==> used[i].callIndex <= HighestIndex(used).value
    ensures used != [] ==> exists i :: 0 <= i < |used| && used[i].callIndex == HighestIndex(used).value
  {
    if used != [] {
      var before := used[..|used| - 1];
      HighestIsMax(before);
      forall i | 0 <= i < |used| ensures used[i].callIndex <= HighestIndex(used).value {
        if i < |before| { assert before[i] == used[i]; }
      }
      if HighestIndex(used).value == used[|used| - 1].callIndex {
      } else {
        var i :| 0 <= i < |before| && before[i].callIndex == HighestIndex(before).value;
        assert used[i] == before[i];
      }
    }
  }

  /** INSERT ... ON CONFLICT DO NOTHING. */
  function BurnNonce(used: seq<Used>, nonce: seq<byte>, callIndex: int): seq<Used> {
    if NonceUsed(used, nonce) then used else used + [Used(nonce, callIndex)]
  }

  /** A nonce is burnt once, and the first index stays with it. */
  lemma BurnsOnce(used: seq<Used>, nonce: seq<byte>, callIndex: int)
    ensures var after := BurnNonce(used, nonce, callIndex);
            && NonceUsed(after, nonce) && used <= after
            && (NonceUsed(used, nonce) ==> after == used)
            && (!NonceUsed(used, nonce) ==> after == used + [Used(nonce, callIndex)])
  {
    if !NonceUsed(used, nonce) { assert BurnNonce(used, nonce, callIndex)[|used|].nonce == nonce; }
  }

  function Accept(rules: Rules, used: seq<Used>, att: Attestation, wanted: Expectation): (Outcome, seq<Used>) {
    var stateless := Check(rules, att, wanted);
    if stateless != Passed then (stateless, used)
    else if NonceUsed(used, att.fields.nonce) then (Rejected(NonceReused), used)
    else if HighestIndex(used).Some? && IndexNumber(att) <= HighestIndex(used).value
      then (Rejected(IndexNotMonotonic), used)
    else (Passed, BurnNonce(used, att.fields.nonce, IndexNumber(att)))
  }

  ghost predicate Above(used: seq<Used>, callIndex: int) {
    forall i :: 0 <= i < |used| ==> used[i].callIndex < callIndex
  }

  /** Accepted exactly when the signed part stands, the nonce is new and the index exceeds every earlier one. */
  lemma AcceptedExactly(rules: Rules, used: seq<Used>, att: Attestation, wanted: Expectation)
    ensures Accept(rules, used, att, wanted).0 == Passed <==>
            Check(rules, att, wanted) == Passed && !NonceUsed(used, att.fields.nonce) && Above(used, IndexNumber(att))
    ensures Accept(rules, used, att, wanted).1 ==
            if Accept(rules, used, att, wanted).0 == Passed then used + [Used(att.fields.nonce, IndexNumber(att))]
              else used
  {
    HighestIsMax(used);
    if used != [] && IndexNumber(att) <= HighestIndex(used).value {
      var i :| 0 <= i < |used| && used[i].callIndex == HighestIndex(used).value;
      assert !Above(used, IndexNumber(att));
    }
  }

  /** What is refused although it stands on its own has a used nonce, or else an index that does not rise. */
  lemma RefusedExactly(rules: Rules, used: seq<Used>, att: Attestation, wanted: Expectation)
    ensures Check(rules, att, wanted) != Passed ==> Accept(rules, used, att, wanted).0 == Check(rules, att, wanted)
    ensures Check(rules, att, wanted) == Passed ==>
              && (Accept(rules, used, att, wanted).0 == Rejected(NonceReused) <==> NonceUsed(used, att.fields.nonce))
              && (Accept(rules, used, att, wanted).0 == Rejected(IndexNotMonotonic) <==>
                  !NonceUsed(used, att.fields.nonce) && !Above(used, IndexNumber(att)))
  {
    AcceptedExactly(rules, used, att, wanted);
  }

  /** Nothing is accepted twice, whatever else was accepted in between and whoever presents it. */
  lemma NothingAcceptedTwice(
    rules: Rules, used: seq<Used>, att: Attestation, wanted: Expectation, later: seq<Used>, again: Expectation)
    requires Accept(rules, used, att, wanted).0 == Passed && Accept(rules, used, att, wanted).1 <= later
    requires Check(rules, att, again) == Passed
    ensures Accept(rules, later, att, again) == (Rejected(NonceReused), later)
  {
    AcceptedExactly(rules, used, att, wanted);
    assert later[|used|] == Used(att.fields.nonce, IndexNumber(att));
  }

  // ----- a whole set at once

  /** Position `i` stands on its own and against the positions before it. */
  ghost predicate StandsAt(rules: Rules, atts: seq<Attestation>, wanted: Expectation, start: Option<int>, i: nat)
    requires i < |atts|
  {
    && Check(rules, atts[i], wanted) == Passed
    && (forall j :: 0 <= j < i ==> atts[j].fields.nonce != atts[i].fields.nonce)
    && (if i > 0 then IndexNumber(atts[i - 1]) < IndexNumber(atts[i])
        else start.Some? ==> start.value < IndexNumber(atts[i]))
  }

  /** Why the first position that does not stand does not: on its own, for its nonce, or else for its index. */
  ghost function WhyNot(rules: Rules, atts: seq<Attestation>, wanted: Expectation, i: nat): Outcome
    requires i < |atts|
  {
    if Check(rules, atts[i], wanted) != Passed then Check(rules, atts[i], wanted)
    else if exists j :: 0 <= j < i && atts[j].fields.nonce == atts[i].fields.nonce then Rejected(NonceReused)
    else Rejected(IndexNotMonotonic)
  }

  ghost predicate SetStands(rules: Rules, atts: seq<Attestation>, wanted: Expectation, start: Option<int>, n: nat)
    requires n <= |atts|
  {
    forall i :: 0 <= i < n ==> StandsAt(rules, atts, wanted, start, i)
  }

  /** The nonces and the last index of the positions before `i`. */
  ghost predicate SeenBefore(
    atts: seq<Attestation>, start: Option<int>, seen: set<seq<byte>>, highest: Option<int>, i: nat)
    requires i <= |atts|
  {
    && seen == (set j | 0 <= j < i :: atts[j].fields.nonce)
    && highest == (if i == 0 then start else Some(IndexNumber(atts[i - 1])))
  }

  /** `firstInvalid` is the first of `n` positions that does not stand, and the results say why. */
  ghost predicate Reports(
    rules: Rules, atts: seq<Attestation>, wanted: Expectation, start: Option<int>, results: seq<Outcome>,
    firstInvalid: Option<nat>, n: nat)
    requires n == |results| <= |atts|
  {
    && (firstInvalid.None? ==> SetStands(rules, atts, wanted, start, n))
    && (firstInvalid.Some? ==>
          && firstInvalid.value < n && !StandsAt(rules, atts, wanted, start, firstInvalid.value)
          && SetStands(rules, atts, wanted, start, firstInvalid.value)
          && results[firstInvalid.value] == WhyNot(rules, atts, wanted, firstInvalid.value))
    && (forall i :: 0 <= i < n && (firstInvalid.None? || i < firstInvalid.value) ==> results[i] == Passed)
    && (forall i :: 0 <= i < n && Check(rules, atts[i], wanted) != Passed ==>
          results[i] == Check(rules, atts[i], wanted))
  }

  function OutcomeAfter(
    rules: Rules, att: Attestation, wanted: Expectation, seen: set<seq<byte>>, highest: Option<int>): Outcome
  {
    if Check(rules, att, wanted) != Passed then Check(rules, att, wanted)
    else if att.fields.nonce in seen then Rejected(NonceReused)
    else if highest.Some? && IndexNumber(att) <= highest.value then Rejected(IndexNotMonotonic)
    else Passed
  }

  lemma OutcomeIsReason(
    rules: Rules, atts: seq<Attestation>, wanted: Expectation, start: Option<int>, seen: set<seq<byte>>,
    highest: Option<int>, i: nat)
    requires i < |atts| && SeenBefore(atts, start, seen, highest, i)
    ensures var outcome := OutcomeAfter(rules, atts[i], wanted, seen, highest);
            && (outcome == Passed <==> StandsAt(rules, atts, wanted, start, i))
            && (outcome != Passed ==> outcome == WhyNot(rules, atts, wanted, i))
  {
  }

  lemma ReportsOneMore(
    rules: Rules, atts: seq<Attestation>, wanted: Expectation, start: Option<int>, results: seq<Outcome>,
    firstInvalid: Option<nat>, outcome: Outcome)
    requires |results| < |atts| && Reports(rules, atts, wanted, start, results, firstInvalid, |results|)
    requires Check(rules, atts[|results|], wanted) != Passed ==> outcome == Check(rules, atts[|results|], wanted)
    requires firstInvalid.None? ==>
               && (outcome == Passed <==> StandsAt(rules, atts, wanted, start, |results|))
               && (outcome != Passed ==> outcome == WhyNot(rules, atts, wanted, |results|))
    ensures Reports(rules, atts, wanted, start, results + [outcome],
              if firstInvalid.None? && outcome != Passed then Some(|results|) else firstInvalid, |results| + 1)
  {
  }

  /** The first position that does not stand, `None` when all do, and what is wrong with each. */
  method CheckSet(rules: Rules, atts: seq<Attestation>, wanted: Expectation, start: Option<int>)
    returns (results: seq<Outcome>, firstInvalid: Option<nat>)
    ensures |results| == |atts|
    ensures Reports(rules, atts, wanted, start, results, firstInvalid, |atts|)
  {
    var seen: set<seq<byte>>, highest := {}, start;
    results, firstInvalid := [], None;
    for i := 0 to |atts|
      invariant |results| == i
      invariant Reports(rules, atts, wanted, start, results, firstInvalid, i)
      invariant firstInvalid.None? ==> SeenBefore(atts, start, seen, highest, i)
    {
      if firstInvalid.None? { OutcomeIsReason(rules, atts, wanted, start, seen, highest, i); }
      ghost var expected := OutcomeAfter(rules, atts[i], wanted, seen, highest);
      var outcome := Check(rules, atts[i], wanted);
      if outcome == Passed {
        var nonce, callIndex := atts[i].fields.nonce, IndexNumber(atts[i]);
        if nonce in seen {
          outcome := Rejected(NonceReused);
        } else {
          seen := seen + {nonce};
          if highest.Some? && callIndex <= highest.value {
            outcome := Rejected(IndexNotMonotonic);
          } else {
            highest := Some(callIndex);
          }
        }
      }
      assert outcome == expected;
      ReportsOneMore(rules, atts, wanted, start, results, firstInvalid, outcome);
      if outcome != Passed && firstInvalid.None? { firstInvalid := Some(i); }
      results := results + [outcome];
    }
  }
}
