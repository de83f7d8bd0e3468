/**
 When the operations of backend/src/channels and backend/src/arbitration refuse: exactly which calls
 succeed, that the reason given is true, and what a refusal leaves behind.
 */
module Refusals {
  import opened Bytes
  import opened Outcomes
  import opened ChannelState
  import opened Revocation
  import opened Negotiation
  import D = DisputeGame

  // ----- the store

  /** Commitments are recorded once, and only an own secret is revealed. */
  lemma StoreRefusals(sha: Hash, slots: Slots, slot: Slot, secret: seq<byte>, hash: seq<byte>)
    ensures Commit(sha, slots, slot, secret) ==
              if slot in slots then Err(CommitmentExists)
                else Ok(slots[slot := Entry(Some(secret), sha(secret), false)])
    ensures var r := RecordCommitment(slots, slot.channelId, slot.text, Some(slot.party), hash);
            && (r.Ok? <==> slot !in slots) && (r.Err? ==> r == Err(CommitmentExists))
            && (r.Ok? ==> r.value == slots[slot := Entry(None, hash, false)])
    ensures RecordCommitment(slots, slot.channelId, slot.text, None, hash) == Err(UnknownParty)
    ensures match Reveal(slots, slot)
            case Ok((after, revealed)) =>
              slot in slots && slots[slot].secret == Some(revealed) && after.Keys == slots.Keys &&
                after[slot].revealed && after == slots[slot := slots[slot].(revealed := true)]
            case Err(e) => if slot in slots then slots[slot].secret == None && e == NotOurs else e == NoCommitment
  {
  }

  /** A revealed secret is filed exactly when it opens a commitment of the version and the named party has one. */
  lemma RevealedSecretRefusals(
    sha: Hash, slots: Slots, channelId: int, text: string, party: PartyName, secret: seq<byte>)
    ensures var r := RecordRevealedSecret(sha, slots, channelId, text, party, secret);
            var opens := OpensSlot(sha, slots, Slot(channelId, text, A), secret) ||
                           OpensSlot(sha, slots, Slot(channelId, text, B), secret);
            && (r.Ok? <==> party.Some? && opens && Slot(channelId, text, party.value) in slots)
            && (r.Ok? ==>
                 var slot := Slot(channelId, text, party.value);
                 && RevealedSecretFor(r.value, slot) == Some(secret)
                 && r.value == slots[slot := Entry(Some(secret), slots[slot].commitmentHash, true)])
            && (r == Err(UnknownParty) <==> party.None?)
            && (r == Err(SecretMismatch) <==> party.Some? && !opens)
            && (r == Err(NoSuchEntry) <==> party.Some? && opens && Slot(channelId, text, party.value) !in slots)
  {
    if Opens(sha, slots, channelId, text, secret) {
      var opener: Party :| OpensSlot(sha, slots, Slot(channelId, text, opener), secret);
      assert opener == A || opener == B;
    }
  }

  // ----- the negotiator

  /** The version is above that of the state held. */
  predicate Fresh(v: View, version: Version) {
    v.current.Some? ==> version.num > v.current.value.version.num
  }

  predicate Free(c: Config, v: View, text: string, party: Party) {
    Slot(c.channelId, text, party) !in v.slots
  }

  /** The state held can be given up: there is none, or its secret is ours to reveal. */
  predicate CanMoveOn(c: Config, v: View) {
    v.current.Some? ==>
      var slot := Slot(c.channelId, v.current.value.version.text, c.party);
      slot in v.slots && v.slots[slot].secret.Some?
  }

  /** One proposal at a time, for a new version, with a commitment of its own; a refused one leaves no trace. */
  lemma ProposeExactly(
    sha: Hash, c: Config, v: View, version: Version, balanceA: int, balanceB: int, secret: seq<byte>)
    ensures var (w, r) := Propose(sha, c, v, version, balanceA, balanceB, secret);
            && (r.Ok? <==> v.pending == NoPending && Fresh(v, version) && Free(c, v, version.text, c.party))
            && (r.Err? ==> w == v)
            && (r.Ok? ==>
                 && r.value == Proposal(c.channelId, version, balanceA, balanceB, Some(c.party), sha(secret))
                 && w.pending == Proposer(r.value) && w == v.(slots := w.slots, pending := w.pending)
                 && w.slots ==
                      v.slots[Slot(c.channelId, version.text, c.party) := Entry(Some(secret), sha(secret), false)])
            && (r.Err? ==> match r.error
                  case InFlight => v.pending != NoPending
                  case StaleVersion => !Fresh(v, version)
                  case Store(e) => e == CommitmentExists && !Free(c, v, version.text, c.party)
                  case _ => false)
  {
  }

  /** The body that a proposal and the hash of the other party's commitment make. */
  function BodyOf(c: Config, p: Proposal, mine: seq<byte>): Body {
    if c.party.A? then Body(c.channelId, p.version.num, p.balanceA, p.balanceB, mine, p.proposerCommitmentHash)
    else Body(c.channelId, p.version.num, p.balanceA, p.balanceB, p.proposerCommitmentHash, mine)
  }

  predicate FreeForBoth(c: Config, v: View, text: string) {
    Free(c, v, text, A) && Free(c, v, text, B)
  }

  /** Both commitments of a round go on record when neither slot is taken. */
  lemma BothRecorded(sha: Hash, c: Config, v: View, text: string, hash: seq<byte>, secret: seq<byte>)
    ensures var recorded := RecordCommitment(v.slots, c.channelId, text, Some(c.party.Other()), hash);
            && (recorded.Ok? <==> Free(c, v, text, c.party.Other()))
            && (recorded.Ok? ==>
                 (Commit(sha, recorded.value, Slot(c.channelId, text, c.party), secret).Ok? <==>
                  Free(c, v, text, c.party)))
            && (FreeForBoth(c, v, text) <==> Free(c, v, text, c.party) && Free(c, v, text, c.party.Other()))
  {
  }

  /** A proposal is counter-signed exactly when it is the other party's, for a new version, and it can be encoded. */
  lemma CounterSignExactly(sha: Hash, c: Config, v: View, p: Proposal, secret: seq<byte>)
    ensures var (w, r) := CounterSign(sha, c, v, p, secret);
            var body := BodyOf(c, p, sha(secret));
            && (r.Ok? <==>
                 && p.channelId == c.channelId && p.proposerParty == Some(c.party.Other()) && Fresh(v, p.version)
                 && FreeForBoth(c, v, p.version.text) && Encodable(body))
            && (r.Ok? ==>
                 && r.value == CounterSignature(c.channelId, p.version, c.party, sha(secret), Sign(body, c.key))
                 && w.pending.Counterparty? && w.pending.state.Bare() == body && w.pending.state.version == p.version
                 && w.current == v.current && w.revealLog == v.revealLog
                 && w.signLog == v.signLog + [Signed(p.version, body)])
  {
    BothRecorded(sha, c, v, p.version.text, p.proposerCommitmentHash, secret);
    if p.proposerParty.Some? && p.proposerParty != Some(c.party) {
      assert p.proposerParty.value.A? || p.proposerParty.value.B?;
      assert p.proposerParty == Some(c.party.Other());
    }
  }

  /**
   A proposal that is refused is not signed, and the reason is true. The commitments that went on
   record before the refusal stay there.
   */
  lemma CounterSignRefusals(sha: Hash, c: Config, v: View, p: Proposal, secret: seq<byte>)
    ensures var (w, r) := CounterSign(sha, c, v, p, secret);
            r.Err? ==>
              && w == v.(slots := w.slots)
              && w.slots ==
                   (if r.error == BadState then
                      v.slots[Slot(c.channelId, p.version.text, c.party.Other()) :=
                        Entry(None, p.proposerCommitmentHash, false)]
                        [Slot(c.channelId, p.version.text, c.party) := Entry(Some(secret), sha(secret), false)]
                    else if r.error == Store(CommitmentExists) && Free(c, v, p.version.text, c.party.Other()) then
                      v.slots[Slot(c.channelId, p.version.text, c.party.Other()) :=
                        Entry(None, p.proposerCommitmentHash, false)]
                    else v.slots)
              && match r.error
                 case WrongChannel => p.channelId != c.channelId
                 case OwnProposal => p.proposerParty == Some(c.party)
                 case StaleVersion => !Fresh(v, p.version)
                 case Store(UnknownParty) => p.proposerParty == None
                 case Store(CommitmentExists) => !FreeForBoth(c, v, p.version.text)
                 case BadState => !Encodable(BodyOf(c, p, sha(secret)))
                 case _ => false
  {
    BothRecorded(sha, c, v, p.version.text, p.proposerCommitmentHash, secret);
    if p.proposerParty.Some? && p.proposerParty != Some(c.party) {
      assert p.proposerParty.value.A? || p.proposerParty.value.B?;
      assert p.proposerParty == Some(c.party.Other());
    }
  }

  /** The body that a proposal of ours and the other party's commitment make. */
  function BodyWith(c: Config, p: Proposal, theirs: seq<byte>): Body {
    if p.proposerParty == Some(A)
    then Body(c.channelId, p.version.num, p.balanceA, p.balanceB, p.proposerCommitmentHash, theirs)
    else Body(c.channelId, p.version.num, p.balanceA, p.balanceB, theirs, p.proposerCommitmentHash)
  }

  /** The answer to the proposal in flight, signed by the other party over the fields of that proposal. */
  predicate Answers(c: Config, v: View, cs: CounterSignature)
    requires v.pending.Proposer?
  {
    var p := v.pending.proposal;
    var body := BodyWith(c, p, cs.commitmentHash);
    && cs.channelId == c.channelId && cs.version.num == p.version.num && Encodable(body)
    && cs.signature == Sign(body, c.counterpartyKey)
  }

  /** A counter-signature is taken exactly when it answers the proposal in flight; then the state carries both. */
  lemma AckExactly(c: Config, v: View, cs: CounterSignature)
    requires v.pending.Proposer?
    ensures var (w, r) := DoAck(c, v, cs);
            var p := v.pending.proposal;
            && (r.Ok? <==> Answers(c, v, cs) && Free(c, v, p.version.text, c.party.Other()) && CanMoveOn(c, v))
            && (r.Ok? ==>
                 && r.value.state.Bare() == BodyWith(c, p, cs.commitmentHash) && r.value.state.version == p.version
                 && Verify(r.value.state, c.KeyOf(A), c.KeyOf(B)) == OK && r.value.channelId == c.channelId
                 && w.current == Some(r.value.state) && w.pending == NoPending && r.value.revokedState == v.current)
  {
  }

  /**
   A counter-signature that is refused changes no state and reveals nothing, and the reason is true.
   The commitment in it stays on record unless it was refused for being there, or before that.
   */
  lemma AckRefusals(c: Config, v: View, cs: CounterSignature)
    requires v.pending.Proposer?
    ensures var (w, r) := DoAck(c, v, cs);
            var p := v.pending.proposal;
            r.Err? ==>
              && w.current == v.current && w.pending == v.pending && w.revealLog == v.revealLog
              && w.slots ==
                   (if r.error in {BadState, BadSignature, Store(NoCommitment), Store(NotOurs)} then
                      v.slots[Slot(c.channelId, p.version.text, c.party.Other()) :=
                        Entry(None, cs.commitmentHash, false)]
                    else v.slots)
              && match r.error
                 case WrongChannel => cs.channelId != c.channelId
                 case VersionMismatch => cs.version.num != p.version.num
                 case Store(CommitmentExists) => !Free(c, v, p.version.text, c.party.Other())
                 case Store(NoCommitment) => !CanMoveOn(c, v)
                 case Store(NotOurs) => !CanMoveOn(c, v)
                 case BadState => !Encodable(BodyWith(c, p, cs.commitmentHash))
                 case BadSignature =>
                   Encodable(BodyWith(c, p, cs.commitmentHash)) &&
                     cs.signature != Sign(BodyWith(c, p, cs.commitmentHash), c.counterpartyKey)
                 case _ => false
  {
  }

  /** An ack is taken exactly when the state in it is for the round in progress and signed by both parties. */
  lemma CompleteExactly(sha: Hash, c: Config, v: View, ack: Ack)
    requires v.pending.Counterparty?
    ensures var (w, r) := Complete(sha, c, v, ack);
            var filed := RecordIfRevealed(sha, c, v.slots, ack.revealed);
            && (r.Ok? <==>
                 && ack.channelId == c.channelId == ack.state.channelId
                 && ack.state.version.num == v.pending.state.version.num
                 && Verify(ack.state, c.KeyOf(A), c.KeyOf(B)) == OK
                 && filed.Ok? && CanMoveOn(c, v.(slots := filed.value)))
            && (r.Ok? ==>
                 && w.current == Some(ack.state) && w.pending == NoPending && r.value.revokedState == v.current
                 && r.value.channelId == c.channelId)
            && (r.Err? ==>
                 w == if filed.Ok? && r.error.Store? then v.(slots := filed.value) else v)
            && (r.Err? ==> match r.error
                  case WrongChannel => ack.channelId != c.channelId
                  case BadSignature => Verify(ack.state, c.KeyOf(A), c.KeyOf(B)) != OK
                  case AckMismatch =>
                    ack.state.channelId != c.channelId || ack.state.version.num != v.pending.state.version.num
                  case Store(e) => filed == Err(e) || (filed.Ok? && !CanMoveOn(c, v.(slots := filed.value)))
                  case _ => false)
  {
  }

  /** Without a round in progress there is nothing to acknowledge or to complete. */
  lemma NothingInProgress(sha: Hash, c: Config, v: View, cs: CounterSignature, ack: Ack)
    ensures !v.pending.Proposer? <==> DoAck(c, v, cs) == (v, Err(NothingPending))
    ensures !v.pending.Counterparty? <==> Complete(sha, c, v, ack) == (v, Err(NothingPending))
  {
  }

  /** The secret in a completion is filed for the version and party it names, or nothing changes. */
  lemma FinalizeExactly(sha: Hash, c: Config, v: View, completion: Completion)
    ensures var (w, r) := Finalize(sha, c, v, completion);
            && (completion.revealed == None ==> w == v && r == Ok(()))
            && (completion.revealed.Some? ==>
                 var x := completion.revealed.value;
                 match RecordRevealedSecret(sha, v.slots, c.channelId, x.version.text, x.party, x.secret)
                 case Ok(slots) => r == Ok(()) && w == v.(slots := slots)
                 case Err(e) => r == Err(Store(e)) && w == v)
  {
  }

  // ----- the dispute

  function Attempted(c: D.Coding, g: D.Game, move: D.Move): Result<D.Game, D.GameError> {
    match move
    case Response(party, responseHash, now) => D.Respond(g, party, responseHash, now)
    case Opening(party, evidence, salt, now) => D.Reveal(c, g, party, evidence, salt, now)
    case Forfeit(now) => Ok(D.CheckForfeit(g, now))
    case Escalation(party, now) => D.Escalate(g, party, now)
    case Ruling(party, ruling) => D.Arbitrate(g, party, ruling)
  }

  predicate InPhase(g: D.Game, move: D.Move) {
    match move
    case Response(_, _, _) => g.phase == D.CommitPhase
    case Opening(_, _, _, _) => g.phase == D.RevealPhase
    case Forfeit(_) => true
    case Escalation(_, _) => g.phase == D.EscalationPhase
    case Ruling(_, _) => g.phase == D.ArbitrationPhase || g.round >= 4
  }

  predicate ByParty(g: D.Game, move: D.Move) {
    match move
    case Response(party, _, _) => party == g.seller
    case Opening(party, _, _, _) => party == g.buyer || party == g.seller
    case Forfeit(_) => true
    case Escalation(party, _) => party == g.buyer || party == g.seller
    case Ruling(party, _) => g.arbiter == "" || party == g.arbiter
  }

  /** What else a move needs. */
  predicate Permitted(c: D.Coding, g: D.Game, move: D.Move) {
    match move
    case Response(_, responseHash, now) => now <= g.phaseDeadline && g.sellerResponseHash == "" && |responseHash| == 64
    case Opening(party, evidence, salt, now) =>
      && now <= g.phaseDeadline
      && if party == g.buyer then !g.buyerRevealed && D.Matches(c.sha, evidence, salt, g.buyerClaimHash)
         else !g.sellerRevealed && g.sellerResponseHash != "" && D.Matches(c.sha, evidence, salt, g.sellerResponseHash)
    case Forfeit(_) => true
    case Escalation(party, _) => g.round < 4 && if party == g.buyer then !g.buyerEscalated else !g.sellerEscalated
    case Ruling(_, ruling) => ruling != D.Undecided
  }

  /** In any game whatsoever a move is accepted exactly when it may be made, and what a refused one is told is true. */
  lemma DisputeRefusals(c: D.Coding, g: D.Game, move: D.Move)
    ensures Attempted(c, g, move).Ok? <==> InPhase(g, move) && ByParty(g, move) && Permitted(c, g, move)
    ensures match Attempted(c, g, move)
            case Ok(after) => InPhase(g, move) && ByParty(g, move) && D.Play(c, g, move) == after
            case Err(e) =>
              && D.Play(c, g, move) == g
              && match e
                 case WrongPhase => !InPhase(g, move)
                 case WrongParty => !ByParty(g, move)
                 case WindowExpired => (move.Response? || move.Opening?) && move.now > g.phaseDeadline
                 case AlreadyDone =>
                   || (move.Response? && g.sellerResponseHash != "")
                   || (move.Opening? && (if move.party == g.buyer then g.buyerRevealed else g.sellerRevealed))
                   || (move.Escalation? && (if move.party == g.buyer then g.buyerEscalated else g.sellerEscalated))
                 case BadHash => move.Response? && |move.responseHash| != 64
                 case NoResponse => move.Opening? && g.sellerResponseHash == ""
                 case HashMismatch =>
                   move.Opening? && (move.party == g.buyer || g.sellerResponseHash != "") &&
                     !D.Matches(c.sha, move.evidence, move.salt,
                     if move.party == g.buyer then g.buyerClaimHash else g.sellerResponseHash)
                 case MaxRounds => move.Escalation? && g.round >= 4
                 case BadRuling => move.Ruling? && move.ruling == D.Undecided
                 case Unresolved => false
  {
  }

  /**
   When both have revealed and the window has passed, the dispute goes on: to arbitration from the
   fourth round on.
   */
  lemma BothRevealedGoesOn(g: D.Game, now: int)
    requires g.phase == D.RevealPhase && now > g.phaseDeadline && g.buyerRevealed && g.sellerRevealed
    ensures var r := D.CheckForfeit(g, now);
            r == g.(phase := r.phase) && r.phase == if g.round < 4 then D.EscalationPhase else D.ArbitrationPhase
  {
  }
}
