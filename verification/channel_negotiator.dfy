/** backend/src/channels/ChannelNegotiator.js: propose, counter-sign, ack, complete, finalize. */
module Negotiation {
  import opened Bytes
  import opened Outcomes
  import opened ChannelState
  import opened Revocation

  /** What one negotiator is configured with. */
  datatype Config = Config(channelId: int, party: Party, key: Key, counterpartyKey: Key) {
    function KeyOf(p: Party): Key {
      if p == party then key else counterpartyKey
    }
  }

  // ----- messages

  datatype Proposal = Proposal(
    channelId: int, version: Version, balanceA: int, balanceB: int, proposerParty: PartyName,
    proposerCommitmentHash: seq<byte>)

  datatype CounterSignature = CounterSignature(
    channelId: int, version: Version, party: Party, commitmentHash: seq<byte>, signature: Signature)

  datatype Revealed = Revealed(version: Version, party: PartyName, secret: seq<byte>)

  datatype Ack = Ack(channelId: int, state: State, revealed: Option<Revealed>, revokedState: Option<State>)

  datatype Completion = Completion(channelId: int, revealed: Option<Revealed>, revokedState: Option<State>)

  datatype Refusal =
    | InFlight | StaleVersion | WrongChannel | OwnProposal | BadState
    | NothingPending | VersionMismatch | BadSignature | BadAssembledState | AckMismatch
    | Store(error: StoreError)

  // ----- the state of one negotiator

  datatype Pending = NoPending | Proposer(proposal: Proposal) | Counterparty(state: State)

  /** One signature made by this party: the version it was asked for and what was signed. */
  datatype Signed = Signed(version: Version, body: Body)

  /** `signLog` and `revealLog` log every signature made and every secret revealed so far. */
  datatype View = View(
    slots: Slots, current: Option<State>, pending: Pending, signLog: seq<Signed>, revealLog: seq<Revealed>)

  /** A negotiator that starts from a state has signed that one already. */
  function StartView(slots: Slots, initial: Option<State>): View {
    View(slots, initial, NoPending,
      if initial.Some? then [Signed(initial.value.version, initial.value.Bare())] else [], [])
  }

  function Stale(v: View, version: Version): bool {
    v.current.Some? && version.num <= v.current.value.version.num
  }

  function Commits(party: Party, mine: seq<byte>, theirs: seq<byte>): (seq<byte>, seq<byte>) {
    if party.A? then (mine, theirs) else (theirs, mine)
  }

  function Propose(
    sha: Hash, c: Config, v: View, version: Version, balanceA: int, balanceB: int, secret: seq<byte>)
    : (View, Result<Proposal, Refusal>)
  {
    if !v.pending.NoPending? then (v, Err(InFlight))
    else if Stale(v, version) then (v, Err(StaleVersion))
    else match Commit(sha, v.slots, Slot(c.channelId, version.text, c.party), secret)
      case Err(e) => (v, Err(Store(e)))
      case Ok(slots) =>
        var proposal := Proposal(c.channelId, version, balanceA, balanceB, Some(c.party), sha(secret));
        (v.(slots := slots, pending := Proposer(proposal)), Ok(proposal))
  }

  function CounterSign(
    sha: Hash, c: Config, v: View, p: Proposal, secret: seq<byte>): (View, Result<CounterSignature, Refusal>)
  {
    if p.channelId != c.channelId then (v, Err(WrongChannel))
    else if p.proposerParty == Some(c.party) then (v, Err(OwnProposal))
    else if Stale(v, p.version) then (v, Err(StaleVersion))
    else match RecordCommitment(v.slots, c.channelId, p.version.text, p.proposerParty, p.proposerCommitmentHash)
      case Err(e) => (v, Err(Store(e)))
      case Ok(recorded) =>
        match Commit(sha, recorded, Slot(c.channelId, p.version.text, c.party), secret)
        case Err(e) => (v.(slots := recorded), Err(Store(e)))
        case Ok(slots) =>
          var commits := Commits(c.party, sha(secret), p.proposerCommitmentHash);
          match CreateState(c.channelId, p.version, p.balanceA, p.balanceB, commits.0, commits.1)
          case None => (v.(slots := slots), Err(BadState))
          case Some(state) =>
            // The pending round, if any, is overwritten.
            (v.(slots := slots, pending := Counterparty(state),
              signLog := v.signLog + [Signed(p.version, state.Bare())]),
             Ok(CounterSignature(c.channelId, p.version, c.party, sha(secret), Sign(state.Bare(), c.key))))
  }

  /** Reveals the secret of the superseded state, if there is one, and moves on to `next`. */
  function Adopt(c: Config, v: View, next: State): (View, Result<Option<Revealed>, Refusal>) {
    match v.current
    case None => (v.(current := Some(next), pending := NoPending), Ok(None))
    case Some(previous) =>
      match Reveal(v.slots, Slot(c.channelId, previous.version.text, c.party))
      case Err(e) => (v, Err(Store(e)))
      case Ok((slots, secret)) =>
        var revealed := Revealed(previous.version, Some(c.party), secret);
        (v.(slots := slots, current := Some(next), pending := NoPending, revealLog := v.revealLog + [revealed]),
          Ok(Some(revealed)))
  }

  /** The state both parties sign once both commitments are known. */
  function Combine(c: Config, p: Proposal, theirs: seq<byte>): Option<State> {
    var commits :=
      if p.proposerParty == Some(A) then (p.proposerCommitmentHash, theirs) else (theirs, p.proposerCommitmentHash);
    CreateState(c.channelId, p.version, p.balanceA, p.balanceB, commits.0, commits.1)
  }

  /** `unsigned` with the counterparty's signature and our own. */
  function Assemble(c: Config, unsigned: State, theirs: Signature): State
    requires Encodable(unsigned.Bare())
  {
    WithSignature(WithSignature(unsigned, c.party.Other(), theirs), c.party, Sign(unsigned.Bare(), c.key))
  }

  predicate FullySigned(c: Config, s: State) {
    Verify(s, c.KeyOf(A), c.KeyOf(B)).OK?
  }

  function DoAck(c: Config, v: View, cs: CounterSignature): (View, Result<Ack, Refusal>) {
    if !v.pending.Proposer? then (v, Err(NothingPending))
    else if cs.channelId != c.channelId then (v, Err(WrongChannel))
    else if cs.version.num != v.pending.proposal.version.num then (v, Err(VersionMismatch))
    else match RecordCommitment(v.slots, c.channelId, v.pending.proposal.version.text, Some(c.party.Other()),
      cs.commitmentHash)
      case Err(e) => (v, Err(Store(e)))
      // From here on the counterparty's commitment stays on record, whatever happens.
      case Ok(slots) => AckRecorded(c, v.(slots := slots), cs)
  }

  function AckRecorded(c: Config, v: View, cs: CounterSignature): (View, Result<Ack, Refusal>)
    requires v.pending.Proposer?
  {
    var p := v.pending.proposal;
    match Combine(c, p, cs.commitmentHash)
    case None => (v, Err(BadState))
    case Some(unsigned) =>
      if cs.signature != Sign(unsigned.Bare(), c.counterpartyKey) then (v, Err(BadSignature))
      else
        var w := v.(signLog := v.signLog + [Signed(p.version, unsigned.Bare())]);
        var state := Assemble(c, unsigned, cs.signature);
        if !FullySigned(c, state) then (w, Err(BadAssembledState))
        else
          var (y, outcome) := Adopt(c, w, state);
          match outcome
          case Err(e) => (y, Err(e))
          case Ok(revealed) => (y, Ok(Ack(c.channelId, state, revealed, v.current)))
  }

  function Complete(sha: Hash, c: Config, v: View, ack: Ack): (View, Result<Completion, Refusal>) {
    if !v.pending.Counterparty? then (v, Err(NothingPending))
    else if ack.channelId != c.channelId then (v, Err(WrongChannel))
    else if !FullySigned(c, ack.state) then (v, Err(BadSignature))
    else if ack.state.channelId != c.channelId || ack.state.version.num != v.pending.state.version.num
      then (v, Err(AckMismatch))
    else match RecordIfRevealed(sha, c, v.slots, ack.revealed)
      case Err(e) => (v, Err(Store(e)))
      case Ok(slots) =>
        var (y, outcome) := Adopt(c, v.(slots := slots), ack.state);
        match outcome
        case Err(e) => (y, Err(e))
        case Ok(revealed) => (y, Ok(Completion(c.channelId, revealed, v.current)))
  }

  function RecordIfRevealed(sha: Hash, c: Config, slots: Slots, revealed: Option<Revealed>): Result<Slots, StoreError> {
    match revealed
    case None => Ok(slots)
    case Some(r) => RecordRevealedSecret(sha, slots, c.channelId, r.version.text, r.party, r.secret)
  }

  function Finalize(sha: Hash, c: Config, v: View, completion: Completion): (View, Result<(), Refusal>) {
    match RecordIfRevealed(sha, c, v.slots, completion.revealed)
    case Err(e) => (v, Err(Store(e)))
    case Ok(slots) => (v.(slots := slots), Ok(()))
  }

  // ----- the object

  class ChannelNegotiator {
    const config: Config
    const store: RevocationStore
    var currentState: Option<State>
    var pending: Pending
    ghost var signLog: seq<Signed>
    ghost var revealLog: seq<Revealed>

    ghost function Now(): View
      reads this, store
    {
      View(store.slots, currentState, pending, signLog, revealLog)
    }

    constructor (config: Config, store: RevocationStore, initialState: Option<State>)
      ensures this.config == config && this.store == store
      ensures Now() == StartView(store.slots, initialState)
    {
      this.config, this.store := config, store;
      currentState, pending := initialState, NoPending;
      signLog, revealLog := StartView(map[], initialState).signLog, [];
    }

    method RunPropose(sha: Hash, version: Version, balanceA: int, balanceB: int, secret: seq<byte>)
      returns (r: Result<Proposal, Refusal>)
      modifies this, store
      ensures (Now(), r) == Propose(sha, config, old(Now()), version, balanceA, balanceB, secret)
    {
      if !pending.NoPending? { return Err(InFlight); }
      if currentState.Some? && version.num <= currentState.value.version.num { return Err(StaleVersion); }
      var hash := store.DoCommit(sha, config.channelId, version.text, config.party, secret);
      if hash.Err? { return Err(Store(hash.error)); }
      var proposal := Proposal(config.channelId, version, balanceA, balanceB, Some(config.party), hash.value);
      pending := Proposer(proposal);
      r := Ok(proposal);
    }

    method RunCounterSign(sha: Hash, p: Proposal, secret: seq<byte>) returns (r: Result<CounterSignature, Refusal>)
      modifies this, store
      ensures (Now(), r) == CounterSign(sha, config, old(Now()), p, secret)
    {
      if p.channelId != config.channelId { return Err(WrongChannel); }
      if p.proposerParty == Some(config.party) { return Err(OwnProposal); }
      if currentState.Some? && p.version.num <= currentState.value.version.num { return Err(StaleVersion); }
      var recorded :=
        store.DoRecordCommitment(config.channelId, p.version.text, p.proposerParty, p.proposerCommitmentHash);
      if recorded.Err? { return Err(Store(recorded.error)); }
      var mine := store.DoCommit(sha, config.channelId, p.version.text, config.party, secret);
      if mine.Err? { return Err(Store(mine.error)); }
      var commits :=
        if config.party.A? then (mine.value, p.proposerCommitmentHash) else (p.proposerCommitmentHash, mine.value);
      var state := CreateState(config.channelId, p.version, p.balanceA, p.balanceB, commits.0, commits.1);
      if state.None? { return Err(BadState); }
      var signature := Sign(state.value.Bare(), config.key);
      signLog := signLog + [Signed(p.version, state.value.Bare())];
      pending := Counterparty(state.value);
      r := Ok(CounterSignature(config.channelId, p.version, config.party, mine.value, signature));
    }

    method RunAck(cs: CounterSignature) returns (r: Result<Ack, Refusal>)
      modifies this, store
      ensures (Now(), r) == DoAck(config, old(Now()), cs)
    {
      if !pending.Proposer? { return Err(NothingPending); }
      var p := pending.proposal;
      if cs.channelId != config.channelId { return Err(WrongChannel); }
      if cs.version.num != p.version.num { return Err(VersionMismatch); }
      var recorded :=
        store.DoRecordCommitment(config.channelId, p.version.text, Some(config.party.Other()), cs.commitmentHash);
      if recorded.Err? { return Err(Store(recorded.error)); }
      var unsigned := Combine(config, p, cs.commitmentHash);
      if unsigned.None? { return Err(BadState); }
      if cs.signature != Sign(unsigned.value.Bare(), config.counterpartyKey) { return Err(BadSignature); }
      var state := Assemble(config, unsigned.value, cs.signature);
      signLog := signLog + [Signed(p.version, unsigned.value.Bare())];
      if !FullySigned(config, state) { return Err(BadAssembledState); }
      // The old secret leaves only here, after the checks on its successor.
      var previous := currentState;
      var revealed := None;
      if previous.Some? {
        var secret := store.DoReveal(config.channelId, previous.value.version.text, config.party);
        if secret.Err? { return Err(Store(secret.error)); }
        revealed := Some(Revealed(previous.value.version, Some(config.party), secret.value));
        revealLog := revealLog + [revealed.value];
      }
      currentState := Some(state);
      pending := NoPending;
      r := Ok(Ack(config.channelId, state, revealed, previous));
    }

    method RunComplete(sha: Hash, ack: Ack) returns (r: Result<Completion, Refusal>)
      modifies this, store
      ensures (Now(), r) == Complete(sha, config, old(Now()), ack)
    {
      if !pending.Counterparty? { return Err(NothingPending); }
      if ack.channelId != config.channelId { return Err(WrongChannel); }
      if !FullySigned(config, ack.state) { return Err(BadSignature); }
      if ack.state.channelId != config.channelId || ack.state.version.num != pending.state.version.num {
        return Err(AckMismatch);
      }
      if ack.revealed.Some? {
        var x := ack.revealed.value;
        var recorded := store.DoRecordRevealedSecret(sha, config.channelId, x.version.text, x.party, x.secret);
        if recorded.Err? { return Err(Store(recorded.error)); }
      }
      var previous := currentState;
      var revealed := None;
      if previous.Some? {
        var secret := store.DoReveal(config.channelId, previous.value.version.text, config.party);
        if secret.Err? { return Err(Store(secret.error)); }
        revealed := Some(Revealed(previous.value.version, Some(config.party), secret.value));
        revealLog := revealLog + [revealed.value];
      }
      currentState := Some(ack.state);
      pending := NoPending;
      r := Ok(Completion(config.channelId, revealed, previous));
    }

    method RunFinalize(sha: Hash, completion: Completion) returns (r: Result<(), Refusal>)
      modifies this, store
      ensures (Now(), r) == Finalize(sha, config, old(Now()), completion)
    {
      if completion.revealed.Some? {
        var x := completion.revealed.value;
        var recorded := store.DoRecordRevealedSecret(sha, config.channelId, x.version.text, x.party, x.secret);
        if recorded.Err? { return Err(Store(recorded.error)); }
      }
      r := Ok(());
    }
  }
}
