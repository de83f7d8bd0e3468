/** backend/src/arbitration/DisputeGame.js: commit, reveal, escalate, arbitrate, and who is paid what. */
module DisputeGame {
  import opened BigInt
  import opened Bytes
  import opened Outcomes
  import Hexadecimal
  import Utf8

  datatype Phase = CommitPhase | RevealPhase | EscalationPhase | ArbitrationPhase | ResolvedPhase

  datatype Verdict = Undecided | BuyerWins | SellerWins | Split

  const MAX_DISPUTE_ROUNDS := 4
  const RESPONSE_WINDOW_SECS := 86400
  const REVEAL_WINDOW_SECS := 86400

  /** The fields of a game; an absent hash or arbiter is the empty text. */
  datatype Game = Game(
    buyer: string, seller: string, round: int, buyerBond: int, sellerBond: int,
    buyerClaimHash: string, sellerResponseHash: string,
    buyerEvidence: Option<string>, sellerEvidence: Option<string>,
    buyerRevealed: bool, sellerRevealed: bool, buyerEscalated: bool, sellerEscalated: bool,
    phase: Phase, outcome: Verdict, phaseDeadline: int, arbiter: string)

  datatype GameError =
    | WrongPhase | WrongParty | WindowExpired | AlreadyDone | BadHash | NoResponse | HashMismatch
    | MaxRounds | BadRuling | Unresolved

  // ----- commitments

  /** Lower case, for the letters that can occur in a hexadecimal text. */
  function Lower(s: string): (r: string)
    ensures |r| == |s|
  {
    seq(|s|, i requires 0 <= i < |s| => if 'A' <= s[i] <= 'Z' then s[i] - 'A' + 'a' else s[i])
  }

  /** Evidence and salt are hashed one after the other, with nothing in between. */
  function ComputeCommitHash(sha: Hash, evidence: seq<byte>, salt: seq<byte>): string {
    Hexadecimal.Encode(sha(evidence + salt))
  }

  predicate Matches(sha: Hash, evidence: seq<byte>, salt: seq<byte>, commitment: string) {
    Lower(ComputeCommitHash(sha, evidence, salt)) == Lower(commitment)
  }

  lemma {:induction false} LowerHex(b: seq<byte>)
    ensures Lower(Hexadecimal.Encode(b)) == Hexadecimal.Encode(b)
  {
    if b != [] {
      LowerHex(b[1..]);
      var text, rest := Hexadecimal.Encode(b), Hexadecimal.Encode(b[1..]);
      forall i | 0 <= i < |text| ensures !('A' <= text[i] <= 'Z') {
        if i >= 2 { assert text[i] == rest[i - 2] == Lower(rest)[i - 2]; }
      }
    }
  }

  /**
   A commitment fixes evidence and salt run together, so it fixes the evidence exactly when it
   fixes the salt's length.
   */
  lemma CommitmentBinds(
    sha: Hash, commitment: string, evidence: seq<byte>, salt: seq<byte>, other: seq<byte>, otherSalt: seq<byte>)
    requires Matches(sha, evidence, salt, commitment) && Matches(sha, other, otherSalt, commitment)
    requires CollisionFree<Digest, seq<byte>>(sha, {evidence + salt, other + otherSalt})
    ensures evidence + salt == other + otherSalt
    ensures evidence == other <==> |salt| == |otherSalt|
  {
    LowerHex(sha(evidence + salt));
    LowerHex(sha(other + otherSalt));
    Hexadecimal.EncodeInjective(sha(evidence + salt), sha(other + otherSalt));
    assert |evidence| + |salt| == |other| + |otherSalt|;
    assert evidence == (evidence + salt)[..|evidence|] && other == (other + otherSalt)[..|other|];
  }

  /** The hash, and how evidence is turned into the text that is kept of it. */
  datatype Coding = Coding(sha: Hash, decode: seq<byte> -> string)

  /** What is well-formed UTF-8 is decoded to the text that it encodes. */
  ghost predicate Decodes(c: Coding) {
    forall text :: c.decode(Utf8.Encode(text)) == text
  }

  // ----- moves

  function Respond(g: Game, party: string, responseHash: string, now: int): Result<Game, GameError> {
    if g.phase != CommitPhase then Err(WrongPhase)
    else if party != g.seller then Err(WrongParty)
    else if now > g.phaseDeadline then Err(WindowExpired)
    else if g.sellerResponseHash != "" then Err(AlreadyDone)
    else if |responseHash| != 64 then Err(BadHash)
    else Ok(g.(sellerResponseHash := responseHash, phase := RevealPhase, phaseDeadline := now + REVEAL_WINDOW_SECS))
  }

  function Reveal(
    c: Coding, g: Game, party: string, evidence: seq<byte>, salt: seq<byte>, now: int): Result<Game, GameError>
  {
    if g.phase != RevealPhase then Err(WrongPhase)
    else if now > g.phaseDeadline then Err(WindowExpired)
    else if party == g.buyer then
      if g.buyerRevealed then Err(AlreadyDone)
      else if !Matches(c.sha, evidence, salt, g.buyerClaimHash) then Err(HashMismatch)
      else Ok(g.(buyerRevealed := true, buyerEvidence := Some(c.decode(evidence))))
    else if party == g.seller then
      if g.sellerRevealed then Err(AlreadyDone)
      else if g.sellerResponseHash == "" then Err(NoResponse)
      else if !Matches(c.sha, evidence, salt, g.sellerResponseHash) then Err(HashMismatch)
      else Ok(g.(sellerRevealed := true, sellerEvidence := Some(c.decode(evidence))))
    else Err(WrongParty)
  }

  function CheckForfeit(g: Game, now: int): Game {
    if g.phase == CommitPhase && now > g.phaseDeadline && g.sellerResponseHash == ""
      then g.(outcome := BuyerWins, phase := ResolvedPhase)
    else if g.phase == RevealPhase && now > g.phaseDeadline then
      if g.buyerRevealed && !g.sellerRevealed then g.(outcome := BuyerWins, phase := ResolvedPhase)
      else if !g.buyerRevealed && g.sellerRevealed then g.(outcome := SellerWins, phase := ResolvedPhase)
      else if !g.buyerRevealed then g.(outcome := Split, phase := ResolvedPhase)
      else g.(phase := if g.round >= MAX_DISPUTE_ROUNDS then ArbitrationPhase else EscalationPhase)
    else g
  }

  /**
   Every opening of a commitment comes with one for each proper prefix of its evidence: a reveal that
   is accepted would have been accepted with less.
   */
  lemma PrefixReveals(c: Coding, g: Game, party: string, evidence: seq<byte>, salt: seq<byte>, now: int, k: nat)
    requires k < |evidence| && Reveal(c, g, party, evidence, salt, now).Ok?
    ensures evidence[..k] != evidence && Reveal(c, g, party, evidence[..k], evidence[k..] + salt, now).Ok?
    ensures forall commitment ::
              Matches(c.sha, evidence, salt, commitment) ==>
                Matches(c.sha, evidence[..k], evidence[k..] + salt, commitment)
  {
    assert evidence[..k] + (evidence[k..] + salt) == evidence + salt;
  }

  /** Both have escalated: the next round starts over, or goes to arbitration. */
  function NextRound(g: Game, now: int): Game {
    var h := g.(round := g.round + 1, buyerEscalated := false, sellerEscalated := false,
                buyerRevealed := false, sellerRevealed := false, sellerResponseHash := "");
    if h.round >= MAX_DISPUTE_ROUNDS then h.(phase := ArbitrationPhase)
    else h.(phase := CommitPhase, phaseDeadline := now + RESPONSE_WINDOW_SECS)
  }

  function Raise(g: Game, party: string): Result<Game, GameError> {
    if party == g.buyer then
      if g.buyerEscalated then Err(AlreadyDone) else Ok(g.(buyerEscalated := true, buyerBond := g.buyerBond * 2))
    else if party == g.seller then
      if g.sellerEscalated then Err(AlreadyDone) else Ok(g.(sellerEscalated := true, sellerBond := g.sellerBond * 2))
    else Err(WrongParty)
  }

  function Escalate(g: Game, party: string, now: int): Result<Game, GameError> {
    if g.phase != EscalationPhase then Err(WrongPhase)
    else if g.round >= MAX_DISPUTE_ROUNDS then Err(MaxRounds)
    else
      match Raise(g, party)
      case Err(e) => Err(e)
      case Ok(h) => Ok(if h.buyerEscalated && h.sellerEscalated then NextRound(h, now) else h)
  }

  function Arbitrate(g: Game, party: string, ruling: Verdict): Result<Game, GameError> {
    if g.phase != ArbitrationPhase && g.round < MAX_DISPUTE_ROUNDS then Err(WrongPhase)
    else if g.arbiter != "" && party != g.arbiter then Err(WrongParty)
    else if ruling == Undecided then Err(BadRuling)
    else Ok(g.(outcome := ruling, phase := ResolvedPhase))
  }

  datatype Payout =
    | Won(winner: string, winnerPayout: int, loser: string, slashedBond: int, treasuryShare: int)
    | Refunded(buyerRefund: int, sellerRefund: int)

  function Slash(winner: string, winnerBond: int, loser: string, loserBond: int, treasuryBps: int): Payout {
    var treasuryShare := Quotient(loserBond * treasuryBps, 10000);
    Won(winner, winnerBond + (loserBond - treasuryShare), loser, loserBond, treasuryShare)
  }

  function GetPayoutDistribution(g: Game, treasuryBps: int): Result<Payout, GameError> {
    if g.phase != ResolvedPhase then Err(Unresolved)
    else
      match g.outcome
      case BuyerWins => Ok(Slash(g.buyer, g.buyerBond, g.seller, g.sellerBond, treasuryBps))
      case SellerWins => Ok(Slash(g.seller, g.sellerBond, g.buyer, g.buyerBond, treasuryBps))
      case _ => Ok(Refunded(g.buyerBond, g.sellerBond))
  }

  // ----- payouts

  function PaidOut(p: Payout): int {
    match p
    case Won(_, winnerPayout, _, _, treasuryShare) => winnerPayout + treasuryShare
    case Refunded(buyerRefund, sellerRefund) => buyerRefund + sellerRefund
  }

  lemma QuotientBounds(n: nat, bps: nat)
    requires bps <= 10000
    ensures 0 <= Quotient(n * bps, 10000) <= n
  {
    assert n * bps <= n * 10000;
  }

  /** Nothing is created or destroyed, for any treasury rate; up to the whole bond, no one is left with a debt. */
  lemma PayoutsArePool(g: Game, treasuryBps: int)
    requires g.phase == ResolvedPhase
    ensures GetPayoutDistribution(g, treasuryBps).Ok? &&
              PaidOut(GetPayoutDistribution(g, treasuryBps).value) == g.buyerBond + g.sellerBond
    ensures match GetPayoutDistribution(g, treasuryBps).value
            case Won(winner, _, loser, slashedBond, _) =>
              if g.outcome == BuyerWins then winner == g.buyer && loser == g.seller && slashedBond == g.sellerBond
              else g.outcome == SellerWins && winner == g.seller && loser == g.buyer && slashedBond == g.buyerBond
            case Refunded(buyerRefund, sellerRefund) =>
              g.outcome != BuyerWins && g.outcome != SellerWins && buyerRefund == g.buyerBond &&
                sellerRefund == g.sellerBond
    ensures 0 <= treasuryBps <= 10000 && g.buyerBond >= 0 && g.sellerBond >= 0 ==>
              match GetPayoutDistribution(g, treasuryBps).value
              case Won(winner, winnerPayout, _, slashedBond, treasuryShare) =>
                && 0 <= treasuryShare <= slashedBond
                && 10000 * treasuryShare <= slashedBond * treasuryBps < 10000 * (treasuryShare + 1)
                && winnerPayout >= (if g.outcome == BuyerWins then g.buyerBond else g.sellerBond)
              case Refunded(buyerRefund, sellerRefund) => buyerRefund >= 0 && sellerRefund >= 0
  {
    if 0 <= treasuryBps <= 10000 && g.buyerBond >= 0 && g.sellerBond >= 0 {
      QuotientBounds(g.buyerBond, treasuryBps);
      QuotientBounds(g.sellerBond, treasuryBps);
    }
  }

  /** Nothing is paid out before there is an outcome. */
  lemma PaysWhenResolved(g: Game, treasuryBps: int)
    ensures GetPayoutDistribution(g, treasuryBps) == Err(Unresolved) <==> g.phase != ResolvedPhase
    ensures GetPayoutDistribution(g, treasuryBps).Ok? <==> g.phase == ResolvedPhase
  {
  }

  // ----- runs

  datatype Move =
    | Response(party: string, responseHash: string, now: int)
    | Opening(party: string, evidence: seq<byte>, salt: seq<byte>, now: int)
    | Forfeit(now: int)
    | Escalation(party: string, now: int)
    | Ruling(party: string, ruling: Verdict)

  function Settle(g: Game, r: Result<Game, GameError>): Game {
    if r.Ok? then r.value else g
  }

  function Play(c: Coding, g: Game, move: Move): Game {
    match move
    case Response(party, responseHash, now) => Settle(g, Respond(g, party, responseHash, now))
    case Opening(party, evidence, salt, now) => Settle(g, Reveal(c, g, party, evidence, salt, now))
    case Forfeit(now) => CheckForfeit(g, now)
    case Escalation(party, now) => Settle(g, Escalate(g, party, now))
    case Ruling(party, ruling) => Settle(g, Arbitrate(g, party, ruling))
  }

  function PlayAll(c: Coding, g: Game, moves: seq<Move>): Game {
    if moves == [] then g else Play(c, PlayAll(c, g, moves[..|moves| - 1]), moves[|moves| - 1])
  }

  lemma MovesAddUp(c: Coding, g: Game, moves: seq<Move>, move: Move)
    ensures PlayAll(c, g, []) == g && PlayAll(c, g, moves + [move]) == Play(c, PlayAll(c, g, moves), move)
  {
    assert (moves + [move])[..|moves|] == moves;
  }

  /** A game as it is opened: first round, waiting for the seller. */
  predicate Fresh(g: Game) {
    && g.round == 1 && g.phase == CommitPhase && g.outcome == Undecided && g.sellerResponseHash == ""
    && !g.buyerRevealed && !g.sellerRevealed && !g.buyerEscalated && !g.sellerEscalated
  }

  function Doublings(round: int, escalated: bool): int {
    round - 1 + if escalated then 1 else 0
  }

  function Times2(bond: int, n: int): int {
    if n <= 0 then bond else 2 * Times2(bond, n - 1)
  }

  predicate Standing(start: Game, g: Game) {
    && 1 <= g.round <= 4 && g.buyer == start.buyer && g.seller == start.seller && g.arbiter == start.arbiter &&
         g.buyerClaimHash == start.buyerClaimHash
    && g.buyerBond == Times2(start.buyerBond, Doublings(g.round, g.buyerEscalated))
    && g.sellerBond == Times2(start.sellerBond, Doublings(g.round, g.sellerEscalated))
    && (g.buyerEscalated || g.sellerEscalated ==> g.phase == EscalationPhase && g.round < 4)
    && !(g.buyerEscalated && g.sellerEscalated)
    && (g.phase == ArbitrationPhase ==> g.round == 4)
    && (g.round == 4 ==> g.phase == ArbitrationPhase || g.phase == ResolvedPhase)
    && (g.outcome != Undecided <==> g.phase == ResolvedPhase)
    && (g.phase == CommitPhase ==> g.sellerResponseHash == "" && !g.buyerRevealed && !g.sellerRevealed)
    && (g.phase == RevealPhase ==> |g.sellerResponseHash| == 64)
    && (g.phase == EscalationPhase ==> g.buyerRevealed && g.sellerRevealed)
  }

  lemma PlayKeepsStanding(c: Coding, start: Game, g: Game, move: Move)
    requires Standing(start, g)
    ensures Standing(start, Play(c, g, move))
  {
  }

  lemma {:induction false} PlayAllKeepsStanding(c: Coding, start: Game, moves: seq<Move>)
    requires Fresh(start)
    ensures Standing(start, PlayAll(c, start, moves))
  {
    if moves != [] {
      PlayAllKeepsStanding(c, start, moves[..|moves| - 1]);
      PlayKeepsStanding(c, start, PlayAll(c, start, moves[..|moves| - 1]), moves[|moves| - 1]);
    }
  }

  /**
   Whatever is played: bonds double once an escalation, at most to eight times; round 4 is
   arbitration, and only a resolved game has an outcome.
   */
  lemma BondsAndPhases(c: Coding, start: Game, moves: seq<Move>)
    requires Fresh(start) && start.buyerBond >= 0 && start.sellerBond >= 0
    ensures var g := PlayAll(c, start, moves);
            && start.buyerBond <= g.buyerBond <= 8 * start.buyerBond &&
                 start.sellerBond <= g.sellerBond <= 8 * start.sellerBond
            && g.buyerBond == Times2(start.buyerBond, Doublings(g.round, g.buyerEscalated))
            && g.sellerBond == Times2(start.sellerBond, Doublings(g.round, g.sellerEscalated))
            && (g.phase == ArbitrationPhase ==> g.round == 4) &&
                 (g.round == 4 ==> g.phase == ArbitrationPhase || g.phase == ResolvedPhase)
            && (g.outcome != Undecided <==> g.phase == ResolvedPhase)
  {
    PlayAllKeepsStanding(c, start, moves);
    var g := PlayAll(c, start, moves);
    AtMostThrice(start.buyerBond, Doublings(g.round, g.buyerEscalated));
    AtMostThrice(start.sellerBond, Doublings(g.round, g.sellerEscalated));
  }

  lemma AtMostThrice(bond: nat, n: int)
    requires 0 <= n <= 3
    ensures bond <= Times2(bond, n) <= 8 * bond
  {
    assert Times2(bond, 3) == 2 * Times2(bond, 2) && Times2(bond, 2) == 2 * Times2(bond, 1) &&
      Times2(bond, 1) == 2 * Times2(bond, 0);
  }

  // ----- what is behind each state

  /** The moves that count: in time, by the party whose turn it is, and with the evidence that was committed to. */
  predicate Entitled(c: Coding, g: Game, move: Move) {
    match move
    case Response(party, responseHash, now) =>
      g.phase == CommitPhase && party == g.seller && now <= g.phaseDeadline && |responseHash| == 64
    case Opening(party, evidence, salt, now) =>
      && g.phase == RevealPhase && now <= g.phaseDeadline
      && if party == g.buyer then !g.buyerRevealed && Matches(c.sha, evidence, salt, g.buyerClaimHash)
         else party == g.seller && !g.sellerRevealed && Matches(c.sha, evidence, salt, g.sellerResponseHash)
    case Forfeit(now) => (g.phase == CommitPhase || g.phase == RevealPhase) && now > g.phaseDeadline
    case Escalation(party, _) =>
      g.phase == EscalationPhase && if party == g.buyer then !g.buyerEscalated
                                    else party == g.seller && !g.sellerEscalated
    case Ruling(party, ruling) =>
      g.round == 4 && (g.arbiter == "" || party == g.arbiter) && ruling != Undecided && ruling != g.outcome
  }

  /** A move changes a game exactly when it counts. */
  lemma ChangesExactly(c: Coding, start: Game, g: Game, move: Move)
    requires Standing(start, g)
    ensures Play(c, g, move) != g <==> Entitled(c, g, move)
  {
  }

  /** The seller's response on record, and the window it opened. */
  predicate Answers(g: Game, move: Move) {
    && move.Response? && move.party == g.seller && move.responseHash == g.sellerResponseHash
    && (g.phase == RevealPhase ==> g.phaseDeadline == move.now + REVEAL_WINDOW_SECS)
  }

  /** The evidence on record is what the party passed in, and it opens the commitment. */
  predicate Shows(c: Coding, move: Move, party: string, evidence: Option<string>, commitment: string) {
    && move.Opening? && move.party == party && evidence == Some(c.decode(move.evidence))
    && Matches(c.sha, move.evidence, move.salt, commitment)
  }

  /** An escalation opened the current round. */
  predicate OpensRound(g: Game, move: Move) {
    move.Escalation? && (move.party == g.buyer || move.party == g.seller) &&
      g.phaseDeadline == move.now + RESPONSE_WINDOW_SECS
  }

  /** A forfeit for who did not respond or reveal, or the ruling of the arbiter. */
  predicate Decides(g: Game, move: Move) {
    if g.round < 4 then
      && move.Forfeit? && move.now > g.phaseDeadline
      && g.outcome == (if g.sellerResponseHash == "" || (g.buyerRevealed && !g.sellerRevealed) then BuyerWins
                       else if g.sellerRevealed && !g.buyerRevealed then SellerWins else Split)
      && !(g.buyerRevealed && g.sellerRevealed)
    else move.Ruling? && move.ruling == g.outcome && (g.arbiter == "" || move.party == g.arbiter)
  }

  ghost predicate ResponseExplained(moves: seq<Move>, g: Game) {
    g.sellerResponseHash != "" ==> exists i :: 0 <= i < |moves| && Answers(g, moves[i])
  }

  ghost predicate EvidenceExplained(
    c: Coding, moves: seq<Move>, party: string, revealed: bool, evidence: Option<string>, commitment: string)
  {
    revealed ==> exists i :: 0 <= i < |moves| && Shows(c, moves[i], party, evidence, commitment)
  }

  ghost predicate RoundExplained(start: Game, moves: seq<Move>, g: Game) {
    g.phase == CommitPhase ==>
      if g.round == 1 then g.phaseDeadline == start.phaseDeadline
      else exists i :: 0 <= i < |moves| && OpensRound(g, moves[i])
  }

  ghost predicate OutcomeExplained(moves: seq<Move>, g: Game) {
    g.phase == ResolvedPhase ==> exists i :: 0 <= i < |moves| && Decides(g, moves[i])
  }

  ghost predicate Explained(c: Coding, start: Game, moves: seq<Move>, g: Game) {
    && ResponseExplained(moves, g)
    && EvidenceExplained(c, moves, g.buyer, g.buyerRevealed, g.buyerEvidence, g.buyerClaimHash)
    && EvidenceExplained(c, moves, g.seller, g.sellerRevealed, g.sellerEvidence, g.sellerResponseHash)
    && RoundExplained(start, moves, g) && OutcomeExplained(moves, g)
  }

  lemma ResponseStaysExplained(c: Coding, start: Game, moves: seq<Move>, g: Game, move: Move)
    requires Standing(start, g) && ResponseExplained(moves, g)
    ensures ResponseExplained(moves + [move], Play(c, g, move))
  {
    var r, longer := Play(c, g, move), moves + [move];
    if r.sellerResponseHash != "" && r.sellerResponseHash == g.sellerResponseHash {
      var i :| 0 <= i < |moves| && Answers(g, moves[i]);
      assert Answers(r, longer[i]);
    } else if r.sellerResponseHash != "" {
      assert Answers(r, longer[|moves|]);
    }
  }

  lemma BuyerStaysExplained(c: Coding, start: Game, moves: seq<Move>, g: Game, move: Move)
    requires Standing(start, g)
    requires EvidenceExplained(c, moves, g.buyer, g.buyerRevealed, g.buyerEvidence, g.buyerClaimHash)
    ensures var r := Play(c, g, move);
            EvidenceExplained(c, moves + [move], r.buyer, r.buyerRevealed, r.buyerEvidence, r.buyerClaimHash)
  {
    var r, longer := Play(c, g, move), moves + [move];
    if r.buyerRevealed && g.buyerRevealed {
      var i :| 0 <= i < |moves| && Shows(c, moves[i], g.buyer, g.buyerEvidence, g.buyerClaimHash);
      assert Shows(c, longer[i], r.buyer, r.buyerEvidence, r.buyerClaimHash);
    } else if r.buyerRevealed {
      assert Shows(c, longer[|moves|], r.buyer, r.buyerEvidence, r.buyerClaimHash);
    }
  }

  lemma SellerStaysExplained(c: Coding, start: Game, moves: seq<Move>, g: Game, move: Move)
    requires Standing(start, g)
    requires EvidenceExplained(c, moves, g.seller, g.sellerRevealed, g.sellerEvidence, g.sellerResponseHash)
    ensures var r := Play(c, g, move);
            EvidenceExplained(c, moves + [move], r.seller, r.sellerRevealed, r.sellerEvidence, r.sellerResponseHash)
  {
    var r, longer := Play(c, g, move), moves + [move];
    if r.sellerRevealed && g.sellerRevealed {
      var i :| 0 <= i < |moves| && Shows(c, moves[i], g.seller, g.sellerEvidence, g.sellerResponseHash);
      assert Shows(c, longer[i], r.seller, r.sellerEvidence, r.sellerResponseHash);
    } else if r.sellerRevealed {
      assert Shows(c, longer[|moves|], r.seller, r.sellerEvidence, r.sellerResponseHash);
    }
  }

  lemma RoundStaysExplained(c: Coding, start: Game, moves: seq<Move>, g: Game, move: Move)
    requires Standing(start, g) && RoundExplained(start, moves, g)
    ensures RoundExplained(start, moves + [move], Play(c, g, move))
  {
    var r, longer := Play(c, g, move), moves + [move];
    if r.phase == CommitPhase && g.phase == CommitPhase && g.round > 1 {
      var i :| 0 <= i < |moves| && OpensRound(g, moves[i]);
      assert OpensRound(r, longer[i]);
    } else if r.phase == CommitPhase && r.round > 1 {
      assert OpensRound(r, longer[|moves|]);
    }
  }

  lemma OutcomeStaysExplained(c: Coding, start: Game, moves: seq<Move>, g: Game, move: Move)
    requires Standing(start, g) && OutcomeExplained(moves, g)
    ensures OutcomeExplained(moves + [move], Play(c, g, move))
  {
    var r, longer := Play(c, g, move), moves + [move];
    if r.phase == ResolvedPhase && r == g {
      var i :| 0 <= i < |moves| && Decides(g, moves[i]);
      assert Decides(r, longer[i]);
    } else if r.phase == ResolvedPhase {
      assert Decides(r, longer[|moves|]);
    }
  }

  /**
   Over every run of a fresh game: evidence is on record for a party exactly as that party passed it
   in and it opens the party's commitment, each window is counted from the move that opened it, and
   the outcome follows from a missed window or is the ruling of the arbiter.
   */
  lemma {:induction false} EveryRunIsExplained(c: Coding, start: Game, moves: seq<Move>)
    requires Fresh(start)
    ensures Explained(c, start, moves, PlayAll(c, start, moves))
  {
    if moves != [] {
      var before := moves[..|moves| - 1];
      EveryRunIsExplained(c, start, before);
      PlayAllKeepsStanding(c, start, before);
      var g, move := PlayAll(c, start, before), moves[|moves| - 1];
      ResponseStaysExplained(c, start, before, g, move);
      BuyerStaysExplained(c, start, before, g, move);
      SellerStaysExplained(c, start, before, g, move);
      RoundStaysExplained(c, start, before, g, move);
      OutcomeStaysExplained(c, start, before, g, move);
      assert before + [moves[|moves| - 1]] == moves;
    }
  }

  /**
   The evidence on record, encoded again, opens the commitment with the salt that came along exactly
   when it was passed in as UTF-8.
   */
  lemma RecordReopensExactly(c: Coding, move: Move, party: string, evidence: string, commitment: string)
    requires Decodes(c) && Shows(c, move, party, Some(evidence), commitment)
    requires CollisionFree<Digest, seq<byte>>(c.sha, {move.evidence + move.salt, Utf8.Encode(evidence) + move.salt})
    ensures Matches(c.sha, Utf8.Encode(evidence), move.salt, commitment) <==>
            exists text :: move.evidence == Utf8.Encode(text)
  {
    if Matches(c.sha, Utf8.Encode(evidence), move.salt, commitment) {
      CommitmentBinds(c.sha, commitment, move.evidence, move.salt, Utf8.Encode(evidence), move.salt);
      assert move.evidence == Utf8.Encode(evidence);
    }
    if text :| move.evidence == Utf8.Encode(text) {
      assert c.decode(Utf8.Encode(text)) == text;
    }
  }

  // ----- termination

  function One(b: bool): nat {
    if b then 1 else 0
  }

  /** Moves left: six a round, one for the ruling. */
  function MovesLeft(g: Game): int {
    match g.phase
    case ResolvedPhase => 0
    case ArbitrationPhase => 1
    case CommitPhase => 1 + 6 * (4 - g.round)
    case RevealPhase => 6 * (4 - g.round) - One(g.buyerRevealed) - One(g.sellerRevealed)
    case EscalationPhase => 6 * (4 - g.round) - 3 - One(g.buyerEscalated) - One(g.sellerEscalated)
  }

  /** Every move that changes an unresolved game brings it closer to its end. */
  lemma EveryMoveCounts(c: Coding, start: Game, g: Game, move: Move)
    requires Standing(start, g) && g.phase != ResolvedPhase && Play(c, g, move) != g
    ensures 0 <= MovesLeft(Play(c, g, move)) < MovesLeft(g)
  {
  }

  /** How many moves of a run changed the game before it was resolved. */
  function Changes(c: Coding, g: Game, moves: seq<Move>): nat {
    if moves == [] then 0 else
      var before := PlayAll(c, g, moves[..|moves| - 1]);
      Changes(c, g, moves[..|moves| - 1]) +
        One(before.phase != ResolvedPhase && Play(c, before, moves[|moves| - 1]) != before)
  }

  /** No run changes a fresh game more than nineteen times before it is resolved. */
  lemma {:induction false} AtMostNineteenChanges(c: Coding, start: Game, moves: seq<Move>)
    requires Fresh(start)
    ensures Changes(c, start, moves) + MovesLeft(PlayAll(c, start, moves)) <= 19
    ensures MovesLeft(PlayAll(c, start, moves)) >= 0
  {
    if moves != [] {
      var before := PlayAll(c, start, moves[..|moves| - 1]);
      AtMostNineteenChanges(c, start, moves[..|moves| - 1]);
      PlayAllKeepsStanding(c, start, moves[..|moves| - 1]);
      if before.phase != ResolvedPhase && Play(c, before, moves[|moves| - 1]) != before {
        EveryMoveCounts(c, start, before, moves[|moves| - 1]);
      }
    }
  }

  /**
   A resolved game is final exactly when it was resolved before arbitration; after that only
   another valid ruling of the arbiter changes it.
   */
  lemma ResolvedIsFinal(c: Coding, start: Game, g: Game)
    requires Standing(start, g) && g.phase == ResolvedPhase
    ensures (forall move :: Play(c, g, move) == g) <==> g.round < 4
    ensures forall move :: Play(c, g, move) != g ==> move.Ruling? && (g.arbiter == "" || move.party == g.arbiter)
  {
    if g.round >= 4 {
      var other := if g.outcome == Split then BuyerWins else Split;
      assert Play(c, g, Ruling(g.arbiter, other)).outcome == other;
    }
  }

  /** No one forfeits in time, and whoever revealed in time does not lose by forfeit. */
  lemma ForfeitIsEarned(start: Game, g: Game, now: int)
    requires Standing(start, g) && g.phase != ResolvedPhase
    ensures CheckForfeit(g, now) != g <==> now > g.phaseDeadline && (g.phase == CommitPhase || g.phase == RevealPhase)
    ensures CheckForfeit(g, now).outcome == BuyerWins ==> !g.sellerRevealed
    ensures CheckForfeit(g, now).outcome == SellerWins ==> !g.buyerRevealed && g.sellerRevealed
    ensures g.buyerRevealed && g.sellerRevealed ==> CheckForfeit(g, now).outcome == Undecided
  {
  }

  // ----- the class

  class Dispute {
    const buyer: string
    const seller: string
    const arbiter: string
    const buyerClaimHash: string
    var round: int
    var buyerBond: int
    var sellerBond: int
    var sellerResponseHash: string
    var buyerEvidence: Option<string>
    var sellerEvidence: Option<string>
    var buyerRevealed: bool
    var sellerRevealed: bool
    var buyerEscalated: bool
    var sellerEscalated: bool
    var phase: Phase
    var outcome: Verdict
    var phaseDeadline: int

    function Now(): Game
      reads this
    {
      Game(buyer, seller, round, buyerBond, sellerBond, buyerClaimHash, sellerResponseHash, buyerEvidence,
        sellerEvidence,
           buyerRevealed, sellerRevealed, buyerEscalated, sellerEscalated, phase, outcome, phaseDeadline, arbiter)
    }

    /** A new dispute; the seller has the response window to answer. */
    constructor (
      buyer: string, seller: string, buyerBond: int, sellerBond: int, buyerClaimHash: string, createdAt: int,
      arbiter: string)
      ensures Fresh(Now()) && this.buyer == buyer && this.seller == seller && this.arbiter == arbiter &&
                this.buyerClaimHash == buyerClaimHash
      ensures this.buyerBond == buyerBond && this.sellerBond == sellerBond &&
                phaseDeadline == createdAt + RESPONSE_WINDOW_SECS
    {
      this.buyer, this.seller, this.arbiter, this.buyerClaimHash := buyer, seller, arbiter, buyerClaimHash;
      round, this.buyerBond, this.sellerBond := 1, buyerBond, sellerBond;
      sellerResponseHash, buyerEvidence, sellerEvidence := "", None, None;
      buyerRevealed, sellerRevealed, buyerEscalated, sellerEscalated := false, false, false, false;
      phase, outcome, phaseDeadline := CommitPhase, Undecided, createdAt + RESPONSE_WINDOW_SECS;
    }

    method DoRespond(party: string, responseHash: string, now: int) returns (r: Result<(), GameError>)
      modifies this
      ensures Now() == Settle(old(Now()), Respond(old(Now()), party, responseHash, now))
      ensures r == match Respond(old(Now()), party, responseHash, now) case Ok(_) => Ok(()) case Err(e) => Err(e)
    {
      if phase != CommitPhase { return Err(WrongPhase); }
      if party != seller { return Err(WrongParty); }
      if now > phaseDeadline { return Err(WindowExpired); }
      if sellerResponseHash != "" { return Err(AlreadyDone); }
      if |responseHash| != 64 { return Err(BadHash); }
      sellerResponseHash := responseHash;
      phase := RevealPhase;
      phaseDeadline := now + REVEAL_WINDOW_SECS;
      r := Ok(());
    }

    method DoReveal(c: Coding, party: string, evidence: seq<byte>, salt: seq<byte>, now: int)
      returns (r: Result<(), GameError>)
      modifies this
      ensures Now() == Settle(old(Now()), Reveal(c, old(Now()), party, evidence, salt, now))
      ensures r == match Reveal(c, old(Now()), party, evidence, salt, now) case Ok(_) => Ok(()) case Err(e) => Err(e)
    {
      if phase != RevealPhase { return Err(WrongPhase); }
      if now > phaseDeadline { return Err(WindowExpired); }
      if party == buyer {
        if buyerRevealed { return Err(AlreadyDone); }
        if !Matches(c.sha, evidence, salt, buyerClaimHash) { return Err(HashMismatch); }
        buyerRevealed, buyerEvidence := true, Some(c.decode(evidence));
      } else if party == seller {
        if sellerRevealed { return Err(AlreadyDone); }
        if sellerResponseHash == "" { return Err(NoResponse); }
        if !Matches(c.sha, evidence, salt, sellerResponseHash) { return Err(HashMismatch); }
        sellerRevealed, sellerEvidence := true, Some(c.decode(evidence));
      } else {
        return Err(WrongParty);
      }
      r := Ok(());
    }

    method DoCheckForfeit(now: int) returns (v: Verdict)
      modifies this
      ensures Now() == CheckForfeit(old(Now()), now) && v == outcome
    {
      if phase == ResolvedPhase { return outcome; }
      if phase == CommitPhase && now > phaseDeadline && sellerResponseHash == "" {
        outcome, phase := BuyerWins, ResolvedPhase;
        return outcome;
      }
      if phase == RevealPhase && now > phaseDeadline {
        if buyerRevealed && !sellerRevealed {
          outcome, phase := BuyerWins, ResolvedPhase;
        } else if !buyerRevealed && sellerRevealed {
          outcome, phase := SellerWins, ResolvedPhase;
        } else if !buyerRevealed && !sellerRevealed {
          outcome, phase := Split, ResolvedPhase;
        } else if round >= MAX_DISPUTE_ROUNDS {
          phase := ArbitrationPhase;
        } else {
          phase := EscalationPhase;
        }
      }
      v := outcome;
    }

    method DoRaise(party: string) returns (r: Result<(), GameError>)
      modifies this
      ensures Now() == Settle(old(Now()), Raise(old(Now()), party))
      ensures r == match Raise(old(Now()), party) case Ok(_) => Ok(()) case Err(e) => Err(e)
    {
      if party == buyer {
        if buyerEscalated { return Err(AlreadyDone); }
        buyerEscalated, buyerBond := true, buyerBond * 2;
      } else if party == seller {
        if sellerEscalated { return Err(AlreadyDone); }
        sellerEscalated, sellerBond := true, sellerBond * 2;
      } else {
        return Err(WrongParty);
      }
      r := Ok(());
    }

    method DoNextRound(now: int)
      modifies this
      ensures Now() == NextRound(old(Now()), now)
    {
      round := round + 1;
      buyerEscalated, sellerEscalated, buyerRevealed, sellerRevealed := false, false, false, false;
      sellerResponseHash := "";
      if round >= MAX_DISPUTE_ROUNDS {
        phase := ArbitrationPhase;
      } else {
        phase, phaseDeadline := CommitPhase, now + RESPONSE_WINDOW_SECS;
      }
    }

    method DoEscalate(party: string, now: int) returns (r: Result<(), GameError>)
      modifies this
      ensures Now() == Settle(old(Now()), Escalate(old(Now()), party, now))
      ensures r == match Escalate(old(Now()), party, now) case Ok(_) => Ok(()) case Err(e) => Err(e)
    {
      if phase != EscalationPhase { return Err(WrongPhase); }
      if round >= MAX_DISPUTE_ROUNDS { return Err(MaxRounds); }
      r := DoRaise(party);
      if r.Ok? && buyerEscalated && sellerEscalated { DoNextRound(now); }
    }

    method DoArbitrate(party: string, ruling: Verdict) returns (r: Result<(), GameError>)
      modifies this
      ensures Now() == Settle(old(Now()), Arbitrate(old(Now()), party, ruling))
      ensures r == match Arbitrate(old(Now()), party, ruling) case Ok(_) => Ok(()) case Err(e) => Err(e)
    {
      if phase != ArbitrationPhase && round < MAX_DISPUTE_ROUNDS { return Err(WrongPhase); }
      if arbiter != "" && party != arbiter { return Err(WrongParty); }
      if ruling == Undecided { return Err(BadRuling); }
      outcome, phase := ruling, ResolvedPhase;
      r := Ok(());
    }
  }
}
