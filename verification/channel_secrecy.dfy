/**
 What the secrets that a party gives away can be used for: never against the state it holds. The
 runs are those of `ChannelSafety`, with any calls and any messages.
 */
module ChannelSecrecy {
  import opened Bytes
  import opened Outcomes
  import opened ChannelState
  import opened Revocation
  import opened Negotiation
  import opened ChannelSafety

  // ----- secrets in the store, and commitments on record

  /** Both commitments of `body` are on record for the version of that text. */
  ghost predicate OnRecord(slots: Slots, channelId: int, text: string, body: Body) {
    forall party: Party :: Holds(slots, Slot(channelId, text, party), body.Commit(party))
  }

  predicate Holds(slots: Slots, slot: Slot, hash: seq<byte>) {
    slot in slots && slots[slot].commitmentHash == hash
  }

  /** Each secret on file opens one of the two commitments of its version. */
  ghost predicate SecretsOpen(sha: Hash, slots: Slots) {
    forall slot ::
      slot in slots && slots[slot].secret.Some? ==>
      Opens(sha, slots, slot.channelId, slot.text, slots[slot].secret.value)
  }

  ghost predicate KeepsHashes(before: Slots, after: Slots) {
    forall slot :: slot in before ==> slot in after && after[slot].commitmentHash == before[slot].commitmentHash
  }

  lemma OpensStays(sha: Hash, before: Slots, after: Slots, channelId: int, text: string, secret: seq<byte>)
    requires KeepsHashes(before, after) && Opens(sha, before, channelId, text, secret)
    ensures Opens(sha, after, channelId, text, secret)
  {
    var party: Party :| OpensSlot(sha, before, Slot(channelId, text, party), secret);
    assert OpensSlot(sha, after, Slot(channelId, text, party), secret);
  }

  /** One slot is written, its commitment kept if it had one, and its secret, if any, opens its version. */
  lemma WriteKeepsOpen(sha: Hash, slots: Slots, slot: Slot, entry: Entry)
    requires SecretsOpen(sha, slots) && (slot in slots ==> entry.commitmentHash == slots[slot].commitmentHash)
    requires entry.secret.Some? ==>
               sha(entry.secret.value) == entry.commitmentHash ||
                 Opens(sha, slots, slot.channelId, slot.text, entry.secret.value)
    ensures KeepsHashes(slots, slots[slot := entry]) && SecretsOpen(sha, slots[slot := entry])
  {
    var after := slots[slot := entry];
    forall s | s in after && after[s].secret.Some?
      ensures Opens(sha, after, s.channelId, s.text, after[s].secret.value)
    {
      if s == slot && sha(entry.secret.value) == entry.commitmentHash {
        assert OpensSlot(sha, after, Slot(s.channelId, s.text, s.party), entry.secret.value);
      } else {
        OpensStays(sha, slots, after, s.channelId, s.text, after[s].secret.value);
      }
    }
  }

  lemma CommitKeepsOpen(sha: Hash, slots: Slots, slot: Slot, secret: seq<byte>)
    requires SecretsOpen(sha, slots) && Commit(sha, slots, slot, secret).Ok?
    ensures KeepsHashes(slots, Commit(sha, slots, slot, secret).value) &&
              SecretsOpen(sha, Commit(sha, slots, slot, secret).value)
  {
    WriteKeepsOpen(sha, slots, slot, Entry(Some(secret), sha(secret), false));
  }

  lemma RecordKeepsOpen(sha: Hash, slots: Slots, channelId: int, text: string, party: PartyName, hash: seq<byte>)
    requires SecretsOpen(sha, slots) && RecordCommitment(slots, channelId, text, party, hash).Ok?
    ensures var after := RecordCommitment(slots, channelId, text, party, hash).value;
            KeepsHashes(slots, after) && SecretsOpen(sha, after)
  {
    WriteKeepsOpen(sha, slots, Slot(channelId, text, party.value), Entry(None, hash, false));
  }

  lemma RevealKeepsOpen(sha: Hash, slots: Slots, slot: Slot)
    requires SecretsOpen(sha, slots) && Reveal(slots, slot).Ok?
    ensures var (after, secret) := Reveal(slots, slot).value;
            KeepsHashes(slots, after) && SecretsOpen(sha, after) && Opens(sha, after, slot.channelId, slot.text, secret)
  {
    WriteKeepsOpen(sha, slots, slot, slots[slot].(revealed := true));
    OpensStays(sha, slots, Reveal(slots, slot).value.0, slot.channelId, slot.text, slots[slot].secret.value);
  }

  lemma FilingKeepsOpen(sha: Hash, c: Config, slots: Slots, revealed: Option<Revealed>)
    requires SecretsOpen(sha, slots) && RecordIfRevealed(sha, c, slots, revealed).Ok?
    ensures var after := RecordIfRevealed(sha, c, slots, revealed).value;
              KeepsHashes(slots, after) && SecretsOpen(sha, after)
  {
    if revealed.Some? {
      var slot := Slot(c.channelId, revealed.value.version.text, revealed.value.party.value);
      WriteKeepsOpen(sha, slots, slot, slots[slot].(secret := Some(revealed.value.secret), revealed := true));
    }
  }

  // ----- the invariant

  /** The version is not above the one held, nor above any that was revealed: only the start is so. */
  ghost predicate FromStart(v: View, version: Version) {
    Reached(v, version) && forall i :: 0 <= i < |v.revealLog| ==> version.num <= v.revealLog[i].version.num
  }

  ghost predicate LogOnRecord(c: Config, v: View) {
    forall i :: 0 <= i < |v.signLog| ==> EntryOnRecord(c, v, v.signLog[i])
  }

  ghost predicate EntryOnRecord(c: Config, v: View, entry: Signed) {
    OnRecord(v.slots, c.channelId, entry.version.text, entry.body) || FromStart(v, entry.version)
  }

  ghost predicate RevealedOpen(sha: Hash, c: Config, v: View) {
    forall i ::
      0 <= i < |v.revealLog| ==> Opens(sha, v.slots, c.channelId, v.revealLog[i].version.text, v.revealLog[i].secret)
  }

  ghost predicate ProposalOnRecord(c: Config, v: View) {
    v.pending.Proposer? ==>
      var p := v.pending.proposal;
      p.proposerParty == Some(c.party) &&
        Holds(v.slots, Slot(c.channelId, p.version.text, c.party), p.proposerCommitmentHash)
  }

  /** Whatever was signed or revealed belongs to commitments on record, for good. */
  ghost predicate RecordInv(sha: Hash, c: Config, v: View) {
    SecretsOpen(sha, v.slots) && LogOnRecord(c, v) && RevealedOpen(sha, c, v) && ProposalOnRecord(c, v)
  }

  lemma OnRecordStays(before: Slots, after: Slots, channelId: int, text: string, body: Body)
    requires KeepsHashes(before, after) && OnRecord(before, channelId, text, body)
    ensures OnRecord(after, channelId, text, body)
  {
    forall party: Party ensures Holds(after, Slot(channelId, text, party), body.Commit(party)) {
      assert Holds(before, Slot(channelId, text, party), body.Commit(party));
    }
  }

  lemma MoreSlotsKeepRecord(sha: Hash, c: Config, v: View, slots: Slots)
    requires RecordInv(sha, c, v) && KeepsHashes(v.slots, slots) && SecretsOpen(sha, slots)
    ensures RecordInv(sha, c, v.(slots := slots))
  {
    var w := v.(slots := slots);
    assert w.signLog == v.signLog && w.revealLog == v.revealLog && w.pending == v.pending;
    forall i | 0 <= i < |v.signLog| ensures EntryOnRecord(c, w, w.signLog[i]) {
      assert EntryOnRecord(c, v, v.signLog[i]);
      if OnRecord(v.slots, c.channelId, v.signLog[i].version.text, v.signLog[i].body) {
        OnRecordStays(v.slots, slots, c.channelId, v.signLog[i].version.text, v.signLog[i].body);
      }
    }
    forall i | 0 <= i < |v.revealLog|
      ensures Opens(sha, slots, c.channelId, w.revealLog[i].version.text, w.revealLog[i].secret)
    {
      OpensStays(sha, v.slots, slots, c.channelId, v.revealLog[i].version.text, v.revealLog[i].secret);
    }
  }

  lemma ProposeKeepsRecord(
    sha: Hash, c: Config, v: View, version: Version, balanceA: int, balanceB: int, secret: seq<byte>)
    requires RecordInv(sha, c, v)
    ensures RecordInv(sha, c, Propose(sha, c, v, version, balanceA, balanceB, secret).0)
  {
    var slot := Slot(c.channelId, version.text, c.party);
    if v.pending.NoPending? && !Stale(v, version) && Commit(sha, v.slots, slot, secret).Ok? {
      CommitKeepsOpen(sha, v.slots, slot, secret);
      MoreSlotsKeepRecord(sha, c, v, Commit(sha, v.slots, slot, secret).value);
    }
  }

  /** Both commitments that a party puts into a state it signs are the ones on record. */
  lemma PairOnRecord(c: Config, slots: Slots, text: string, mine: seq<byte>, theirs: seq<byte>, body: Body)
    requires Holds(slots, Slot(c.channelId, text, c.party), mine) &&
               Holds(slots, Slot(c.channelId, text, c.party.Other()), theirs)
    requires (body.commitA, body.commitB) == Commits(c.party, mine, theirs)
    ensures OnRecord(slots, c.channelId, text, body)
  {
    forall party: Party ensures Holds(slots, Slot(c.channelId, text, party), body.Commit(party)) {
      assert party == c.party || party == c.party.Other();
    }
  }

  lemma CounterSignKeepsRecord(sha: Hash, c: Config, v: View, p: Proposal, secret: seq<byte>)
    requires RecordInv(sha, c, v)
    ensures RecordInv(sha, c, CounterSign(sha, c, v, p, secret).0)
  {
    var recorded := RecordCommitment(v.slots, c.channelId, p.version.text, p.proposerParty, p.proposerCommitmentHash);
    if recorded.Ok? && p.proposerParty != Some(c.party) && p.channelId == c.channelId && !Stale(v, p.version) {
      assert p.proposerParty == Some(c.party.Other()) by {
        assert p.proposerParty.value.A? || p.proposerParty.value.B?;
      }
      RecordKeepsOpen(sha, v.slots, c.channelId, p.version.text, p.proposerParty, p.proposerCommitmentHash);
      MoreSlotsKeepRecord(sha, c, v, recorded.value);
      var slot := Slot(c.channelId, p.version.text, c.party);
      var committed := Commit(sha, recorded.value, slot, secret);
      if committed.Ok? {
        CommitKeepsOpen(sha, recorded.value, slot, secret);
        var v1 := v.(slots := recorded.value);
        MoreSlotsKeepRecord(sha, c, v1, committed.value);
        CounterSignedKeepsRecord(sha, c, v1.(slots := committed.value), p, sha(secret));
      }
    }
  }

  lemma SignedKeepsRecord(sha: Hash, c: Config, v: View, version: Version, body: Body, pending: Pending)
    requires RecordInv(sha, c, v) && OnRecord(v.slots, c.channelId, version.text, body)
    requires pending == v.pending || pending.Counterparty?
    ensures RecordInv(sha, c, v.(pending := pending, signLog := v.signLog + [Signed(version, body)]))
  {
    var w := v.(pending := pending, signLog := v.signLog + [Signed(version, body)]);
    forall i | 0 <= i < |w.signLog| ensures EntryOnRecord(c, w, w.signLog[i]) {
      if i < |v.signLog| { assert EntryOnRecord(c, v, v.signLog[i]); }
    }
  }

  lemma CounterSignedKeepsRecord(sha: Hash, c: Config, v: View, p: Proposal, mine: seq<byte>)
    requires RecordInv(sha, c, v) && Holds(v.slots, Slot(c.channelId, p.version.text, c.party), mine)
    requires Holds(v.slots, Slot(c.channelId, p.version.text, c.party.Other()), p.proposerCommitmentHash)
    ensures var commits := Commits(c.party, mine, p.proposerCommitmentHash);
            var state := CreateState(c.channelId, p.version, p.balanceA, p.balanceB, commits.0, commits.1);
            state.Some? ==>
              RecordInv(sha, c,
                v.(pending := Counterparty(state.value),
                signLog := v.signLog + [Signed(p.version, state.value.Bare())]))
  {
    var commits := Commits(c.party, mine, p.proposerCommitmentHash);
    var state := CreateState(c.channelId, p.version, p.balanceA, p.balanceB, commits.0, commits.1);
    if state.Some? {
      PairOnRecord(c, v.slots, p.version.text, mine, p.proposerCommitmentHash, state.value.Bare());
      SignedKeepsRecord(sha, c, v, p.version, state.value.Bare(), Counterparty(state.value));
    }
  }

  lemma AdoptKeepsRecord(sha: Hash, c: Config, v: View, next: State)
    requires RecordInv(sha, c, v) && !Stale(v, next.version)
    ensures RecordInv(sha, c, Adopt(c, v, next).0)
  {
    if v.current.None? {
      AdoptedKeepsRecord(sha, c, v, next, []);
    } else {
      var slot := Slot(c.channelId, v.current.value.version.text, c.party);
      if Reveal(v.slots, slot).Ok? {
        var (slots, secret) := Reveal(v.slots, slot).value;
        RevealKeepsOpen(sha, v.slots, slot);
        MoreSlotsKeepRecord(sha, c, v, slots);
        AdoptedKeepsRecord(sha, c, v.(slots := slots), next,
          [Revealed(v.current.value.version, Some(c.party), secret)]);
      }
    }
  }

  lemma AdoptedKeepsRecord(sha: Hash, c: Config, v: View, next: State, revealed: seq<Revealed>)
    requires RecordInv(sha, c, v) && !Stale(v, next.version)
    requires forall i :: 0 <= i < |revealed| ==>
               && v.current.Some? && revealed[i].version == v.current.value.version
               && Opens(sha, v.slots, c.channelId, revealed[i].version.text, revealed[i].secret)
    ensures RecordInv(sha, c, v.(current := Some(next), pending := NoPending, revealLog := v.revealLog + revealed))
  {
    var w := v.(current := Some(next), pending := NoPending, revealLog := v.revealLog + revealed);
    forall i | 0 <= i < |w.signLog| ensures EntryOnRecord(c, w, w.signLog[i]) {
      assert EntryOnRecord(c, v, v.signLog[i]);
    }
  }

  lemma AckKeepsRecord(sha: Hash, c: Config, v: View, cs: CounterSignature)
    requires RecordInv(sha, c, v) && PendingInv(c, v)
    ensures RecordInv(sha, c, DoAck(c, v, cs).0)
  {
    if v.pending.Proposer? && cs.channelId == c.channelId && cs.version.num == v.pending.proposal.version.num {
      var p := v.pending.proposal;
      var recorded := RecordCommitment(v.slots, c.channelId, p.version.text, Some(c.party.Other()), cs.commitmentHash);
      if recorded.Ok? {
        RecordKeepsOpen(sha, v.slots, c.channelId, p.version.text, Some(c.party.Other()), cs.commitmentHash);
        MoreSlotsKeepRecord(sha, c, v, recorded.value);
        AckedKeepsRecord(sha, c, v.(slots := recorded.value), cs);
      }
    }
  }

  lemma AckedKeepsRecord(sha: Hash, c: Config, v: View, cs: CounterSignature)
    requires RecordInv(sha, c, v) && v.pending.Proposer? && !Stale(v, v.pending.proposal.version)
    requires Holds(v.slots, Slot(c.channelId, v.pending.proposal.version.text, c.party.Other()), cs.commitmentHash)
    ensures RecordInv(sha, c, AckRecorded(c, v, cs).0)
  {
    var p := v.pending.proposal;
    var unsigned := Combine(c, p, cs.commitmentHash);
    if unsigned.Some? {
      PairOnRecord(c, v.slots, p.version.text, p.proposerCommitmentHash, cs.commitmentHash, unsigned.value.Bare());
      SignedKeepsRecord(sha, c, v, p.version, unsigned.value.Bare(), v.pending);
      var w := v.(signLog := v.signLog + [Signed(p.version, unsigned.value.Bare())]);
      AdoptKeepsRecord(sha, c, w, Assemble(c, unsigned.value, cs.signature));
    }
  }

  lemma CompleteKeepsRecord(sha: Hash, c: Config, v: View, ack: Ack)
    requires RecordInv(sha, c, v) && PendingInv(c, v)
    ensures RecordInv(sha, c, Complete(sha, c, v, ack).0)
  {
    var recorded := RecordIfRevealed(sha, c, v.slots, ack.revealed);
    if recorded.Ok? && v.pending.Counterparty? && ack.state.version.num == v.pending.state.version.num {
      FilingKeepsOpen(sha, c, v.slots, ack.revealed);
      MoreSlotsKeepRecord(sha, c, v, recorded.value);
      AdoptKeepsRecord(sha, c, v.(slots := recorded.value), ack.state);
    }
  }

  lemma FinalizeKeepsRecord(sha: Hash, c: Config, v: View, completion: Completion)
    requires RecordInv(sha, c, v)
    ensures RecordInv(sha, c, Finalize(sha, c, v, completion).0)
  {
    var recorded := RecordIfRevealed(sha, c, v.slots, completion.revealed);
    if recorded.Ok? {
      FilingKeepsOpen(sha, c, v.slots, completion.revealed);
      MoreSlotsKeepRecord(sha, c, v, recorded.value);
    }
  }

  lemma StepKeepsRecord(sha: Hash, c: Config, v: View, call: Call)
    requires RecordInv(sha, c, v) && Inv(c, v)
    ensures RecordInv(sha, c, Step(sha, c, v, call))
  {
    match call
    case CallPropose(version, balanceA, balanceB, secret) =>
      ProposeKeepsRecord(sha, c, v, version, balanceA, balanceB, secret);
    case CallCounterSign(p, secret) => CounterSignKeepsRecord(sha, c, v, p, secret);
    case CallAck(cs) => AckKeepsRecord(sha, c, v, cs);
    case CallComplete(ack) => CompleteKeepsRecord(sha, c, v, ack);
    case CallFinalize(completion) => FinalizeKeepsRecord(sha, c, v, completion);
  }

  // ----- versions are read alike by everybody

  /** Number(version) is a function of String(version). */
  predicate Spelled(number: string -> int, version: Version) {
    version.num == number(version.text)
  }

  predicate Reads(number: string -> int, call: Call) {
    match call
    case CallPropose(version, _, _, _) => Spelled(number, version)
    case CallCounterSign(proposal, _) => Spelled(number, proposal.version)
    case CallAck(_) => true
    case CallComplete(ack) => Spelled(number, ack.state.version)
    case CallFinalize(_) => true
  }

  ghost predicate AllRead(number: string -> int, calls: seq<Call>) {
    forall i :: 0 <= i < |calls| ==> Reads(number, calls[i])
  }

  ghost predicate VersionsRead(number: string -> int, v: View) {
    && (v.current.Some? ==> Spelled(number, v.current.value.version))
    && (v.pending.Proposer? ==> Spelled(number, v.pending.proposal.version))
    && (forall i :: 0 <= i < |v.signLog| ==> Spelled(number, v.signLog[i].version))
    && (forall i :: 0 <= i < |v.revealLog| ==> Spelled(number, v.revealLog[i].version))
  }

  lemma AdoptKeepsRead(number: string -> int, c: Config, v: View, next: State)
    requires VersionsRead(number, v) && Spelled(number, next.version)
    ensures VersionsRead(number, Adopt(c, v, next).0)
  {
  }

  lemma CounterSignKeepsRead(number: string -> int, sha: Hash, c: Config, v: View, p: Proposal, secret: seq<byte>)
    requires VersionsRead(number, v) && Spelled(number, p.version)
    ensures VersionsRead(number, CounterSign(sha, c, v, p, secret).0)
  {
  }

  lemma AckKeepsRead(number: string -> int, c: Config, v: View, cs: CounterSignature)
    requires VersionsRead(number, v)
    ensures VersionsRead(number, DoAck(c, v, cs).0)
  {
    if v.pending.Proposer? {
      var p := v.pending.proposal;
      var recorded := RecordCommitment(v.slots, c.channelId, p.version.text, Some(c.party.Other()), cs.commitmentHash);
      var unsigned := Combine(c, p, cs.commitmentHash);
      if recorded.Ok? && unsigned.Some? {
        var w := v.(slots := recorded.value, signLog := v.signLog + [Signed(p.version, unsigned.value.Bare())]);
        AdoptKeepsRead(number, c, w, Assemble(c, unsigned.value, cs.signature));
      }
    }
  }

  lemma CompleteKeepsRead(number: string -> int, sha: Hash, c: Config, v: View, ack: Ack)
    requires VersionsRead(number, v) && Spelled(number, ack.state.version)
    ensures VersionsRead(number, Complete(sha, c, v, ack).0)
  {
    var recorded := RecordIfRevealed(sha, c, v.slots, ack.revealed);
    if recorded.Ok? { AdoptKeepsRead(number, c, v.(slots := recorded.value), ack.state); }
  }

  lemma StepKeepsRead(number: string -> int, sha: Hash, c: Config, v: View, call: Call)
    requires VersionsRead(number, v) && Reads(number, call)
    ensures VersionsRead(number, Step(sha, c, v, call))
  {
    match call
    case CallPropose(_, _, _, _) =>
    case CallCounterSign(p, secret) => CounterSignKeepsRead(number, sha, c, v, p, secret);
    case CallAck(cs) => AckKeepsRead(number, c, v, cs);
    case CallComplete(ack) => CompleteKeepsRead(number, sha, c, v, ack);
    case CallFinalize(_) =>
  }

  // ----- every run

  ghost predicate SecrecyInv(number: string -> int, sha: Hash, c: Config, v: View) {
    Inv(c, v) && RecordInv(sha, c, v) && VersionsRead(number, v) && HeldMade(c.key, v, v)
  }

  lemma StepKeepsMade(sha: Hash, c: Config, v: View, call: Call)
    requires Inv(c, v) && HeldMade(c.key, v, v) && Deliverable(c.key, v, call)
    ensures var w := Step(sha, c, v, call); HeldMade(c.key, w, w)
  {
    var w := Step(sha, c, v, call);
    LogGrows(sha, c, v, call);
    if w.current == v.current {
      MadeStays(c.key, v, w, v);
    } else {
      AdoptedIsMade(sha, c, v, call, c.key, v);
    }
  }

  lemma {:induction false} RunKeepsSecrecy(number: string -> int, sha: Hash, c: Config, v: View, calls: seq<Call>)
    requires SecrecyInv(number, sha, c, v) && Possible(sha, c, v, calls) && AllRead(number, calls)
    ensures SecrecyInv(number, sha, c, Run(sha, c, v, calls))
    decreases |calls|
  {
    if calls != [] {
      StepKeepsInv(sha, c, v, calls[0]);
      StepKeepsRecord(sha, c, v, calls[0]);
      StepKeepsRead(number, sha, c, v, calls[0]);
      StepKeepsMade(sha, c, v, calls[0]);
      RunKeepsSecrecy(number, sha, c, Step(sha, c, v, calls[0]), calls[1..]);
    }
  }

  /** What a party starts from: nothing, or a store as earlier rounds left it with the state they ended in. */
  ghost predicate StartsOpen(number: string -> int, sha: Hash, c: Config, slots: Slots, initial: Option<State>) {
    StartsWell(c, initial) && SecretsOpen(sha, slots) &&
      (initial.Some? ==> Spelled(number, initial.value.version))
  }

  lemma StartKeepsSecrecy(number: string -> int, sha: Hash, c: Config, slots: Slots, initial: Option<State>)
    requires StartsOpen(number, sha, c, slots, initial)
    ensures SecrecyInv(number, sha, c, StartView(slots, initial))
  {
    StartKeepsInv(c, slots, initial);
    if initial.Some? { StartIsMade(c.key, slots, StartView(slots, initial), initial.value); }
  }

  /** The commitments of the state that a party holds are on record, under a spelling of its version. */
  ghost predicate HeldIsOnRecord(number: string -> int, c: Config, v: View, text: string) {
    v.current.Some? && number(text) == v.current.value.version.num &&
      OnRecord(v.slots, c.channelId, text, v.current.value.Bare())
  }

  lemma HeldIsRecorded(number: string -> int, sha: Hash, c: Config, v: View, i: nat) returns (text: string)
    requires SecrecyInv(number, sha, c, v) && i < |v.revealLog|
    ensures HeldIsOnRecord(number, c, v, text)
  {
    var j := FullySignedIsLogged(c, v, v.current.value);
    text := v.signLog[j].version.text;
    assert EntryOnRecord(c, v, v.signLog[j]) && Spelled(number, v.signLog[j].version);
    assert v.revealLog[i].version.num < v.current.value.version.num;
  }

  /** `hash` is on record for the version of that text, from one party or the other. */
  ghost predicate Recorded(slots: Slots, channelId: int, text: string, hash: seq<byte>) {
    exists party: Party :: Holds(slots, Slot(channelId, text, party), hash)
  }

  /**
   In every run, whatever the counterparty sends: once a secret was given away, the commitments of the
   held state are on record, and the secret opens one of them only if the same commitment is on record
   for a version before it too.
   */
  lemma HeldStateStaysSecret(
    number: string -> int, sha: Hash, c: Config, slots: Slots, initial: Option<State>, calls: seq<Call>, i: nat,
      party: Party)
    requires StartsOpen(number, sha, c, slots, initial)
    requires Possible(sha, c, StartView(slots, initial), calls) && AllRead(number, calls)
    requires i < |Run(sha, c, StartView(slots, initial), calls).revealLog|
    ensures var v := Run(sha, c, StartView(slots, initial), calls);
            && v.current.Some? && (exists text :: HeldIsOnRecord(number, c, v, text))
            && var held, revealed := v.current.value, v.revealLog[i];
            number(revealed.version.text) < held.version.num &&
            (sha(revealed.secret) == held.Bare().Commit(party) ==>
               Recorded(v.slots, c.channelId, revealed.version.text, held.Bare().Commit(party)))
  {
    StartKeepsSecrecy(number, sha, c, slots, initial);
    RunKeepsSecrecy(number, sha, c, StartView(slots, initial), calls);
    RevealedIsOlder(number, sha, c, Run(sha, c, StartView(slots, initial), calls), i, party);
  }

  lemma RevealedIsOlder(number: string -> int, sha: Hash, c: Config, v: View, i: nat, party: Party)
    requires SecrecyInv(number, sha, c, v) && i < |v.revealLog|
    ensures v.current.Some? && exists text :: HeldIsOnRecord(number, c, v, text)
    ensures var held, revealed := v.current.value, v.revealLog[i];
            && number(revealed.version.text) < held.version.num
            && (sha(revealed.secret) == held.Bare().Commit(party) ==>
                  Recorded(v.slots, c.channelId, revealed.version.text, held.Bare().Commit(party)))
  {
    var revealed := v.revealLog[i];
    var text := HeldIsRecorded(number, sha, c, v, i);
    assert Opens(sha, v.slots, c.channelId, revealed.version.text, revealed.secret);
    var opener: Party :| OpensSlot(sha, v.slots, Slot(c.channelId, revealed.version.text, opener), revealed.secret);
    assert Holds(v.slots, Slot(c.channelId, revealed.version.text, opener), sha(revealed.secret));
  }
}
