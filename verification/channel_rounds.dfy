/**
 Completed rounds between two honest parties, either of them proposing: both end in the same
 state, every superseded state is punishable by both stores and both watchtowers, and the
 current one by none of them.
 */
module ChannelRounds {
  import opened Bytes
  import opened Outcomes
  import opened ChannelState
  import opened Revocation
  import opened Negotiation
  import opened Watchtower
  import opened ChannelSafety
  import Decimal

  /** A version that is a JavaScript number. */
  function Numeric(n: nat): Version {
    Version(n, Decimal.Text(n))
  }

  datatype Round = Round(
    proposer: Party, version: nat, balanceA: nat, balanceB: nat, proposerSecret: seq<byte>, otherSecret: seq<byte>)

  datatype Exchange = Exchange(proposer: View, other: View, messages: Option<(Ack, Completion)>)

  /** The five calls of one round; `messages` is None if any of them is refused. */
  function Handshake(sha: Hash, cp: Config, cc: Config, p: View, c: View, r: Round): Exchange {
    var (p1, proposal) := Propose(sha, cp, p, Numeric(r.version), r.balanceA, r.balanceB, r.proposerSecret);
    if proposal.Err? then Exchange(p1, c, None) else
      var (c1, counter) := CounterSign(sha, cc, c, proposal.value, r.otherSecret);
      if counter.Err? then Exchange(p1, c1, None) else
        var (p2, ack) := DoAck(cp, p1, counter.value);
        if ack.Err? then Exchange(p2, c1, None) else
          var (c2, completion) := Complete(sha, cc, c1, ack.value);
          if completion.Err? then Exchange(p2, c2, None) else
            var (p3, done) := Finalize(sha, cp, p2, completion.value);
            if done.Err? then Exchange(p3, c2, None) else Exchange(p3, c2, Some((ack.value, completion.value)))
  }

  // ----- what the store of an honest party holds

  function Mine(c: Config, text: string): Slot {
    Slot(c.channelId, text, c.party)
  }

  function Theirs(c: Config, text: string): Slot {
    Slot(c.channelId, text, c.party.Other())
  }

  ghost predicate Recorded(sha: Hash, slots: Slots, slot: Slot, hash: seq<byte>, known: bool, revealed: bool) {
    && slot in slots && slots[slot].commitmentHash == hash && slots[slot].revealed == revealed
    && (known ==> slots[slot].secret.Some? && sha(slots[slot].secret.value) == hash)
  }

  ghost predicate RecordedState(sha: Hash, c: Config, slots: Slots, s: State, superseded: bool) {
    && Recorded(sha, slots, Mine(c, s.version.text), s.Bare().Commit(c.party), true, superseded)
    && Recorded(sha, slots, Theirs(c, s.version.text), s.Bare().Commit(c.party.Other()), superseded, superseded)
  }

  ghost predicate RecordedHistory(sha: Hash, c: Config, slots: Slots, history: seq<State>) {
    forall i :: 0 <= i < |history| ==> RecordedState(sha, c, slots, history[i], i < |history| - 1)
  }

  ghost predicate InHistory(history: seq<State>, text: string) {
    exists i :: 0 <= i < |history| && text == history[i].version.text
  }

  ghost predicate HonestStore(sha: Hash, c: Config, slots: Slots, history: seq<State>) {
    && RecordedHistory(sha, c, slots, history)
    && (forall slot :: slot in slots ==> InHistory(history, slot.text))
  }

  ghost predicate History(history: seq<State>) {
    && (forall i ::
         0 <= i < |history| ==> Encodable(history[i].Bare()) && history[i].version == Numeric(history[i].version.num))
    && (forall i, j :: 0 <= i < j < |history| ==> history[i].version.num < history[j].version.num)
  }

  function Last(history: seq<State>): Option<State> {
    if history == [] then None else Some(history[|history| - 1])
  }

  ghost predicate HonestParty(sha: Hash, c: Config, v: View, history: seq<State>) {
    v.pending.NoPending? && v.current == Last(history) && History(history) && HonestStore(sha, c, v.slots, history)
  }

  ghost predicate Counterparts(cp: Config, cc: Config) {
    && cc.channelId == cp.channelId && cc.party == cp.party.Other() && cc.key == cp.counterpartyKey &&
         cc.counterpartyKey == cp.key
    && IsU64(cp.channelId)
  }

  ghost predicate Playable(history: seq<State>, r: Round) {
    && IsU64(r.version) && IsU64(r.balanceA) && IsU64(r.balanceB)
    && (history != [] ==> history[|history| - 1].version.num < r.version)
  }

  lemma FreshText(history: seq<State>, r: Round, i: nat)
    requires History(history) && Playable(history, r) && i < |history|
    ensures history[i].version.text != Decimal.Text(r.version)
  {
    assert history[i].version.num <= history[|history| - 1].version.num;
    if history[i].version.text == Decimal.Text(r.version) {
      Decimal.TextInjective(history[i].version.num, r.version);
    }
  }

  lemma TextsDiffer(history: seq<State>, i: nat, j: nat)
    requires History(history) && i < j < |history|
    ensures history[i].version.text != history[j].version.text
  {
    if history[i].version.text == history[j].version.text {
      Decimal.TextInjective(history[i].version.num, history[j].version.num);
    }
  }

  // ----- the effect of a round on one store

  /** Both commitments of a new version. */
  function Opened(sha: Hash, c: Config, slots: Slots, text: string, secret: seq<byte>, theirHash: seq<byte>): Slots {
    slots[Mine(c, text) := Entry(Some(secret), sha(secret), false)][Theirs(c, text) := Entry(None, theirHash, false)]
  }

  /** Both secrets of the superseded version. */
  function Closed(c: Config, slots: Slots, text: string, theirSecret: seq<byte>): Slots
    requires Mine(c, text) in slots && Theirs(c, text) in slots
  {
    slots[Mine(c, text) := slots[Mine(c, text)].(revealed := true)]
         [Theirs(c, text) := slots[Theirs(c, text)].(secret := Some(theirSecret), revealed := true)]
  }

  function AfterRound(
    sha: Hash, c: Config, slots: Slots, history: seq<State>, text: string, secret: seq<byte>, theirHash: seq<byte>,
    theirOldSecret: seq<byte>): Slots
    requires history != [] ==>
               Mine(c, history[|history| - 1].version.text) in slots &&
               Theirs(c, history[|history| - 1].version.text) in slots
  {
    var started := Opened(sha, c, slots, text, secret, theirHash);
    if history == [] then started else Closed(c, started, history[|history| - 1].version.text, theirOldSecret)
  }

  /** The secret a party holds for the newest state. */
  function OldSecret(c: Config, v: View): seq<byte> {
    if v.current.Some? && Mine(c, v.current.value.version.text) in v.slots &&
      v.slots[Mine(c, v.current.value.version.text)].secret.Some?
    then v.slots[Mine(c, v.current.value.version.text)].secret.value else []
  }

  /** Slots of other versions are left alone. */
  lemma OtherVersionsStay(sha: Hash, c: Config, slots: Slots, after: Slots, s: State, superseded: bool)
    requires RecordedState(sha, c, slots, s, superseded)
    requires Mine(c, s.version.text) in after && after[Mine(c, s.version.text)] == slots[Mine(c, s.version.text)]
    requires Theirs(c, s.version.text) in after && after[Theirs(c, s.version.text)] == slots[Theirs(c, s.version.text)]
    ensures RecordedState(sha, c, after, s, superseded)
  {
  }

  lemma OpeningRecords(sha: Hash, c: Config, slots: Slots, s: State, secret: seq<byte>)
    requires s.Bare().Commit(c.party) == sha(secret)
    ensures RecordedState(sha, c, Opened(sha, c, slots, s.version.text, secret, s.Bare().Commit(c.party.Other())), s,
              false)
  {
    assert c.party != c.party.Other();
  }

  lemma ClosingSupersedes(sha: Hash, c: Config, slots: Slots, s: State, theirSecret: seq<byte>)
    requires RecordedState(sha, c, slots, s, false) && sha(theirSecret) == s.Bare().Commit(c.party.Other())
    ensures RecordedState(sha, c, Closed(c, slots, s.version.text, theirSecret), s, true)
  {
    assert c.party != c.party.Other();
  }

  lemma RoundKeepsRecords(
    sha: Hash, c: Config, slots: Slots, history: seq<State>, s: State, r: Round, secret: seq<byte>,
    theirOldSecret: seq<byte>)
    requires History(history) && Playable(history, r) && RecordedHistory(sha, c, slots, history)
    requires s.version == Numeric(r.version) && s.Bare().Commit(c.party) == sha(secret)
    requires history != [] ==> RecordedState(sha, c, slots, history[|history| - 1], false)
    requires history != [] ==> sha(theirOldSecret) == history[|history| - 1].Bare().Commit(c.party.Other())
    ensures RecordedHistory(sha, c,
              AfterRound(sha, c, slots, history, s.version.text, secret, s.Bare().Commit(c.party.Other()),
              theirOldSecret), history + [s])
  {
    var n := |history|;
    var started := Opened(sha, c, slots, s.version.text, secret, s.Bare().Commit(c.party.Other()));
    var after :=
      AfterRound(sha, c, slots, history, s.version.text, secret, s.Bare().Commit(c.party.Other()), theirOldSecret);
    OpeningRecords(sha, c, slots, s, secret);
    if n > 0 {
      FreshText(history, r, n - 1);
      OtherVersionsStay(sha, c, slots, started, history[n - 1], false);
      ClosingSupersedes(sha, c, started, history[n - 1], theirOldSecret);
      OtherVersionsStay(sha, c, started, after, s, false);
    }
    forall i: nat | i < n - 1 ensures RecordedState(sha, c, after, history[i], true) {
      FreshText(history, r, i);
      TextsDiffer(history, i, n - 1);
      assert RecordedState(sha, c, slots, history[i], true);
      OtherVersionsStay(sha, c, slots, after, history[i], true);
    }
  }

  lemma SlotsStayInHistory(slots: Slots, after: Slots, history: seq<State>, s: State)
    requires forall slot :: slot in slots ==> InHistory(history, slot.text)
    requires forall slot :: slot in after ==> slot in slots || slot.text == s.version.text
    ensures forall slot :: slot in after ==> InHistory(history + [s], slot.text)
  {
    var longer := history + [s];
    forall slot | slot in after ensures InHistory(longer, slot.text) {
      if slot in slots {
        var i :| 0 <= i < |history| && slot.text == history[i].version.text;
        assert longer[i] == history[i];
      } else {
        assert slot.text == longer[|history|].version.text;
      }
    }
  }

  lemma RoundKeepsStore(
    sha: Hash, c: Config, slots: Slots, history: seq<State>, s: State, r: Round, secret: seq<byte>,
    theirOldSecret: seq<byte>)
    requires History(history) && Playable(history, r) && HonestStore(sha, c, slots, history)
    requires s.version == Numeric(r.version) && s.Bare().Commit(c.party) == sha(secret)
    requires history != [] ==> sha(theirOldSecret) == history[|history| - 1].Bare().Commit(c.party.Other())
    ensures history != [] ==> RecordedState(sha, c, slots, history[|history| - 1], false)
    ensures HonestStore(sha, c,
              AfterRound(sha, c, slots, history, s.version.text, secret, s.Bare().Commit(c.party.Other()),
              theirOldSecret), history + [s])
  {
    if history != [] { assert RecordedState(sha, c, slots, history[|history| - 1], false); }
    RoundKeepsRecords(sha, c, slots, history, s, r, secret, theirOldSecret);
    SlotsStayInHistory(slots,
      AfterRound(sha, c, slots, history, s.version.text, secret, s.Bare().Commit(c.party.Other()), theirOldSecret),
      history, s);
  }

  // ----- the five calls succeed

  lemma NothingRecordedYet(sha: Hash, c: Config, v: View, history: seq<State>, r: Round)
    requires HonestParty(sha, c, v, history) && Playable(history, r)
    ensures forall slot :: slot in v.slots ==> slot.text != Decimal.Text(r.version)
    ensures !Stale(v, Numeric(r.version))
  {
    forall slot | slot in v.slots ensures slot.text != Decimal.Text(r.version) {
      assert InHistory(history, slot.text);
      var i :| 0 <= i < |history| && slot.text == history[i].version.text;
      FreshText(history, r, i);
    }
  }

  /** The state a round ends in. */
  function RoundState(sha: Hash, c: Config, r: Round): State
    requires IsU64(c.channelId) && IsU64(r.version) && IsU64(r.balanceA) && IsU64(r.balanceB)
  {
    var commits :=
      if r.proposer.A? then (sha(r.proposerSecret), sha(r.otherSecret))
      else (sha(r.otherSecret), sha(r.proposerSecret));
    var body := Body(c.channelId, r.version, r.balanceA, r.balanceB, commits.0, commits.1);
    State(c.channelId, Numeric(r.version), r.balanceA, r.balanceB, commits.0, commits.1,
          Some(Sign(body, c.KeyOf(A))), Some(Sign(body, c.KeyOf(B))))
  }

  function Unsigned(s: State): State {
    s.(sigA := None, sigB := None)
  }

  function ProposalOf(sha: Hash, c: Config, r: Round): Proposal {
    Proposal(c.channelId, Numeric(r.version), r.balanceA, r.balanceB, Some(r.proposer), sha(r.proposerSecret))
  }

  lemma ProposeSucceeds(sha: Hash, cp: Config, p: View, history: seq<State>, r: Round)
    requires cp.party == r.proposer && HonestParty(sha, cp, p, history) && Playable(history, r)
    ensures Propose(sha, cp, p, Numeric(r.version), r.balanceA, r.balanceB, r.proposerSecret) ==
            (p.(slots :=
              p.slots[Mine(cp, Decimal.Text(r.version)) := Entry(Some(r.proposerSecret), sha(r.proposerSecret), false)],
                pending := Proposer(ProposalOf(sha, cp, r))),
             Ok(ProposalOf(sha, cp, r)))
  {
    NothingRecordedYet(sha, cp, p, history, r);
  }

  lemma CounterSignSucceeds(sha: Hash, cp: Config, cc: Config, c: View, history: seq<State>, r: Round)
    requires Counterparts(cp, cc) && cp.party == r.proposer && HonestParty(sha, cc, c, history) && Playable(history, r)
    ensures var s := RoundState(sha, cc, r);
            var (c1, counter) := CounterSign(sha, cc, c, ProposalOf(sha, cp, r), r.otherSecret);
            && counter ==
                 Ok(CounterSignature(cc.channelId, Numeric(r.version), cc.party, sha(r.otherSecret),
                 Sign(s.Bare(), cc.key)))
            && c1.slots == Opened(sha, cc, c.slots, Decimal.Text(r.version), r.otherSecret, sha(r.proposerSecret))
            && c1.current == c.current && c1.pending == Counterparty(Unsigned(s))
  {
    NothingRecordedYet(sha, cc, c, history, r);
    var text := Decimal.Text(r.version);
    var c1 := CounterSign(sha, cc, c, ProposalOf(sha, cp, r), r.otherSecret).0;
    assert cp.party == cc.party.Other() && cc.party != cp.party;
    assert c1.slots == Opened(sha, cc, c.slots, text, r.otherSecret, sha(r.proposerSecret));
  }

  /** What a party that adopts `next` reveals. */
  function Release(c: Config, v: View): Option<Revealed> {
    match v.current
    case None => None
    case Some(previous) => Some(Revealed(previous.version, Some(c.party), OldSecret(c, v)))
  }

  lemma AckSucceeds(sha: Hash, cp: Config, cc: Config, p: View, history: seq<State>, r: Round)
    requires Counterparts(cp, cc) && cp.party == r.proposer && HonestParty(sha, cp, p, history) && Playable(history, r)
    ensures var text := Decimal.Text(r.version);
            var s := RoundState(sha, cp, r);
            var p1 := Propose(sha, cp, p, Numeric(r.version), r.balanceA, r.balanceB, r.proposerSecret).0;
            var (p2, ack) :=
              DoAck(cp, p1,
              CounterSignature(cc.channelId, Numeric(r.version), cc.party, sha(r.otherSecret), Sign(s.Bare(), cc.key)));
            var started := Opened(sha, cp, p.slots, text, r.proposerSecret, sha(r.otherSecret));
            && ack == Ok(Ack(cp.channelId, s, Release(cp, p), p.current))
            && p2.current == Some(s) && p2.pending == NoPending
            && p2.slots == if history == [] then started
                           else started[Mine(cp, history[|history| - 1].version.text) :=
                             p.slots[Mine(cp, history[|history| - 1].version.text)].(revealed := true)]
  {
    var text := Decimal.Text(r.version);
    var s := RoundState(sha, cp, r);
    NothingRecordedYet(sha, cp, p, history, r);
    ProposeSucceeds(sha, cp, p, history, r);
    var p1 := Propose(sha, cp, p, Numeric(r.version), r.balanceA, r.balanceB, r.proposerSecret).0;
    var started := Opened(sha, cp, p.slots, text, r.proposerSecret, sha(r.otherSecret));
    assert cp.party != cp.party.Other();
    assert p1.slots[Theirs(cp, text) := Entry(None, sha(r.otherSecret), false)] == started;
    var unsigned := Combine(cp, ProposalOf(sha, cp, r), sha(r.otherSecret));
    assert unsigned == Some(Unsigned(s)) && Unsigned(s).Bare() == s.Bare();
    assert Assemble(cp, Unsigned(s), Sign(s.Bare(), cc.key)) == s;
    assert FullySigned(cp, s);
    if history != [] {
      var last := history[|history| - 1];
      FreshText(history, r, |history| - 1);
      assert RecordedState(sha, cp, p.slots, last, false);
      assert started[Mine(cp, last.version.text)] == p.slots[Mine(cp, last.version.text)];
    }
  }

  /** Filing the counterparty's secret and revealing one's own, in either order, closes a version. */
  lemma FilingAndRevealing(sha: Hash, c: Config, slots: Slots, s: State, theirSecret: seq<byte>)
    requires RecordedState(sha, c, slots, s, false) && sha(theirSecret) == s.Bare().Commit(c.party.Other())
    ensures RecordRevealedSecret(sha, slots, c.channelId, s.version.text, Some(c.party.Other()), theirSecret) ==
            Ok(slots[Theirs(c, s.version.text) :=
              slots[Theirs(c, s.version.text)].(secret := Some(theirSecret), revealed := true)])
    ensures slots[Theirs(c, s.version.text) :=
              slots[Theirs(c, s.version.text)].(secret := Some(theirSecret), revealed := true)]
                 [Mine(c, s.version.text) := slots[Mine(c, s.version.text)].(revealed := true)] ==
                   Closed(c, slots, s.version.text, theirSecret)
    ensures var revealed := slots[Mine(c, s.version.text) := slots[Mine(c, s.version.text)].(revealed := true)];
            RecordRevealedSecret(sha, revealed, c.channelId, s.version.text, Some(c.party.Other()), theirSecret) ==
            Ok(Closed(c, slots, s.version.text, theirSecret))
  {
    assert c.party != c.party.Other();
    assert OpensSlot(sha, slots, Theirs(c, s.version.text), theirSecret);
    var revealed := slots[Mine(c, s.version.text) := slots[Mine(c, s.version.text)].(revealed := true)];
    assert OpensSlot(sha, revealed, Theirs(c, s.version.text), theirSecret);
  }

  /** The message part that reveals `secret` for the state `previous`. */
  function Revealing(previous: Option<State>, party: Party, secret: seq<byte>): Option<Revealed> {
    if previous.None? then None else Some(Revealed(previous.value.version, Some(party), secret))
  }

  lemma CompleteSucceeds(sha: Hash, c: Config, v: View, s: State, theirSecret: seq<byte>, revoked: Option<State>)
    requires v.pending == Counterparty(Unsigned(s)) && FullySigned(c, s) && s.channelId == c.channelId
    requires v.current.Some? ==> RecordedState(sha, c, v.slots, v.current.value, false)
    requires v.current.Some? ==> sha(theirSecret) == v.current.value.Bare().Commit(c.party.Other())
    ensures var (w, completion) :=
              Complete(sha, c, v, Ack(c.channelId, s, Revealing(v.current, c.party.Other(), theirSecret), revoked));
            && completion == Ok(Completion(c.channelId, Revealing(v.current, c.party, OldSecret(c, v)), v.current))
            && w.current == Some(s) && w.pending == NoPending
            && w.slots ==
                 if v.current.None? then v.slots else Closed(c, v.slots, v.current.value.version.text, theirSecret)
  {
    if v.current.Some? {
      var text := v.current.value.version.text;
      FilingAndRevealing(sha, c, v.slots, v.current.value, theirSecret);
      assert c.party != c.party.Other();
      var filed := v.slots[Theirs(c, text) := v.slots[Theirs(c, text)].(secret := Some(theirSecret), revealed := true)];
      assert filed[Mine(c, text)] == v.slots[Mine(c, text)];
    }
  }

  lemma FinalizeSucceeds(
    sha: Hash, c: Config, v: View, started: Slots, previous: Option<State>, theirSecret: seq<byte>,
    revoked: Option<State>)
    requires previous.None? ==> v.slots == started
    requires previous.Some? ==> RecordedState(sha, c, started, previous.value, false)
    requires previous.Some? ==> sha(theirSecret) == previous.value.Bare().Commit(c.party.Other())
    requires previous.Some? ==>
               v.slots ==
                 started[Mine(c, previous.value.version.text) :=
                 started[Mine(c, previous.value.version.text)].(revealed := true)]
    ensures Finalize(sha, c, v, Completion(c.channelId, Revealing(previous, c.party.Other(), theirSecret), revoked)) ==
            (v.(slots :=
              if previous.None? then started else Closed(c, started, previous.value.version.text, theirSecret)), Ok(()))
  {
    if previous.Some? { FilingAndRevealing(sha, c, started, previous.value, theirSecret); }
  }

  lemma HistoryGrows(sha: Hash, c: Config, history: seq<State>, r: Round)
    requires History(history) && Playable(history, r) && IsU64(c.channelId)
    ensures History(history + [RoundState(sha, c, r)])
  {
  }

  lemma LastIsRecorded(sha: Hash, c: Config, v: View, history: seq<State>)
    requires HonestParty(sha, c, v, history) && history != []
    ensures RecordedState(sha, c, v.slots, history[|history| - 1], false)
    ensures sha(OldSecret(c, v)) == history[|history| - 1].Bare().Commit(c.party)
  {
    assert RecordedState(sha, c, v.slots, history[|history| - 1], false);
  }

  lemma OpeningKeepsState(
    sha: Hash, c: Config, slots: Slots, s: State, text: string, secret: seq<byte>, theirHash: seq<byte>)
    requires RecordedState(sha, c, slots, s, false) && s.version.text != text
    ensures RecordedState(sha, c, Opened(sha, c, slots, text, secret, theirHash), s, false)
    ensures Opened(sha, c, slots, text, secret, theirHash)[Mine(c, s.version.text)] ==
              slots[Mine(c, s.version.text)]
  {
    OtherVersionsStay(sha, c, slots, Opened(sha, c, slots, text, secret, theirHash), s, false);
  }

  /** Opening a new version leaves the newest recorded state as it was. */
  lemma OpeningKeepsLast(
    sha: Hash, c: Config, v: View, history: seq<State>, r: Round, secret: seq<byte>, theirHash: seq<byte>)
    requires HonestParty(sha, c, v, history) && Playable(history, r) && history != []
    ensures RecordedState(sha, c, v.slots, history[|history| - 1], false)
    ensures var started := Opened(sha, c, v.slots, Decimal.Text(r.version), secret, theirHash);
            && RecordedState(sha, c, started, history[|history| - 1], false)
            && started[Mine(c, history[|history| - 1].version.text)] ==
                 v.slots[Mine(c, history[|history| - 1].version.text)]
    ensures sha(OldSecret(c, v)) == history[|history| - 1].Bare().Commit(c.party)
  {
    var last := history[|history| - 1];
    FreshText(history, r, |history| - 1);
    LastIsRecorded(sha, c, v, history);
    OpeningKeepsState(sha, c, v.slots, last, Decimal.Text(r.version), secret, theirHash);
  }

  /** The first three calls of a round. */
  lemma RoundUpToAck(sha: Hash, cp: Config, cc: Config, p: View, c: View, history: seq<State>, r: Round)
    requires Counterparts(cp, cc) && cp.party == r.proposer && Playable(history, r)
    requires HonestParty(sha, cp, p, history) && HonestParty(sha, cc, c, history)
    ensures RoundState(sha, cp, r) == RoundState(sha, cc, r)
    ensures var s := RoundState(sha, cp, r);
            var (p1, proposal) := Propose(sha, cp, p, Numeric(r.version), r.balanceA, r.balanceB, r.proposerSecret);
            && proposal.Ok?
            && var (c1, counter) := CounterSign(sha, cc, c, proposal.value, r.otherSecret);
            && counter.Ok? && c1.current == c.current && c1.pending == Counterparty(Unsigned(s))
            && c1.slots == Opened(sha, cc, c.slots, Decimal.Text(r.version), r.otherSecret, sha(r.proposerSecret))
            && var (p2, ack) := DoAck(cp, p1, counter.value);
            && ack == Ok(Ack(cp.channelId, s, Release(cp, p), p.current)) && p2.current == Some(s) &&
                 p2.pending == NoPending
            && var started := Opened(sha, cp, p.slots, Decimal.Text(r.version), r.proposerSecret, sha(r.otherSecret));
            && (history == [] ==> p2.slots == started)
            && (history != [] ==>
                  p2.slots ==
                    started[Mine(cp, history[|history| - 1].version.text) :=
                    p.slots[Mine(cp, history[|history| - 1].version.text)].(revealed := true)])
  {
    ProposeSucceeds(sha, cp, p, history, r);
    CounterSignSucceeds(sha, cp, cc, c, history, r);
    AckSucceeds(sha, cp, cc, p, history, r);
  }

  /** Both stores still hold the newest state with secrets that open its commitments. */
  ghost predicate NewestOpens(sha: Hash, c: Config, v: View, started: Slots, previous: Option<State>) {
    v.current == previous &&
    (previous.Some? ==>
       && RecordedState(sha, c, v.slots, previous.value, false) && RecordedState(sha, c, started, previous.value, false)
       && started[Mine(c, previous.value.version.text)] == v.slots[Mine(c, previous.value.version.text)]
       && sha(OldSecret(c, v)) == previous.value.Bare().Commit(c.party))
  }

  /** The last two calls of a round. */
  lemma RoundFromAck(
    sha: Hash, cp: Config, cc: Config, p: View, c: View, p2: View, c1: View, startedP: Slots, startedC: Slots, s: State,
      previous: Option<State>)
    requires Counterparts(cp, cc) && FullySigned(cc, s) && s.channelId == cc.channelId
    requires NewestOpens(sha, cp, p, startedP, previous) && NewestOpens(sha, cc, c, startedC, previous)
    requires c1.slots == startedC && c1.current == previous && c1.pending == Counterparty(Unsigned(s))
    requires previous.None? ==> p2.slots == startedP
    requires previous.Some? ==>
               p2.slots ==
                 startedP[Mine(cp, previous.value.version.text) :=
                 startedP[Mine(cp, previous.value.version.text)].(revealed := true)]
    ensures var (c2, completion) := Complete(sha, cc, c1, Ack(cp.channelId, s, Release(cp, p), p.current));
            var (p3, done) := Finalize(sha, cp, p2, Completion(cc.channelId, Release(cc, c), c.current));
            && completion == Ok(Completion(cc.channelId, Release(cc, c), c.current)) && done == Ok(())
            && c2.current == Some(s) && c2.pending == NoPending
            && c2.slots ==
                 (if previous.None? then startedC
                 else Closed(cc, startedC, previous.value.version.text, OldSecret(cp, p)))
            && p3 ==
                 p2.(slots :=
                 if previous.None? then startedP
                 else Closed(cp, startedP, previous.value.version.text, OldSecret(cc, c)))
  {
    assert cp.party == cc.party.Other();
    assert OldSecret(cc, c1) == OldSecret(cc, c);
    CompleteSucceeds(sha, cc, c1, s, OldSecret(cp, p), p.current);
    FinalizeSucceeds(sha, cp, p2, startedP, previous, OldSecret(cc, c), c.current);
  }

  /** One honest round from any honest history: no call is refused, and both stores change alike. */
  lemma RoundCalls(sha: Hash, cp: Config, cc: Config, p: View, c: View, history: seq<State>, r: Round)
    requires Counterparts(cp, cc) && cp.party == r.proposer && Playable(history, r)
    requires HonestParty(sha, cp, p, history) && HonestParty(sha, cc, c, history)
    ensures RoundState(sha, cp, r) == RoundState(sha, cc, r)
    ensures var s := RoundState(sha, cp, r);
            var startedP := Opened(sha, cp, p.slots, s.version.text, r.proposerSecret, sha(r.otherSecret));
            var startedC := Opened(sha, cc, c.slots, s.version.text, r.otherSecret, sha(r.proposerSecret));
            && NewestOpens(sha, cp, p, startedP, Last(history)) && NewestOpens(sha, cc, c, startedC, Last(history))
            && var e := Handshake(sha, cp, cc, p, c, r);
            && e.messages ==
                 Some((Ack(cp.channelId, s, Release(cp, p), p.current),
                 Completion(cc.channelId, Release(cc, c), c.current)))
            && e.proposer.current == e.other.current == Some(s) && e.proposer.pending == e.other.pending == NoPending
            && e.proposer.slots ==
                 AfterRound(sha, cp, p.slots, history, s.version.text, r.proposerSecret, sha(r.otherSecret),
                 OldSecret(cc, c))
            && e.other.slots ==
                 AfterRound(sha, cc, c.slots, history, s.version.text, r.otherSecret, sha(r.proposerSecret),
                 OldSecret(cp, p))
  {
    var s := RoundState(sha, cp, r);
    var startedP := Opened(sha, cp, p.slots, s.version.text, r.proposerSecret, sha(r.otherSecret));
    var startedC := Opened(sha, cc, c.slots, s.version.text, r.otherSecret, sha(r.proposerSecret));
    RoundUpToAck(sha, cp, cc, p, c, history, r);
    var (p1, proposal) := Propose(sha, cp, p, Numeric(r.version), r.balanceA, r.balanceB, r.proposerSecret);
    var (c1, counter) := CounterSign(sha, cc, c, proposal.value, r.otherSecret);
    var (p2, ack) := DoAck(cp, p1, counter.value);
    NewestStaysOpen(sha, cp, p, history, r, r.proposerSecret, sha(r.otherSecret));
    NewestStaysOpen(sha, cc, c, history, r, r.otherSecret, sha(r.proposerSecret));
    RoundFromAck(sha, cp, cc, p, c, p2, c1, startedP, startedC, s, Last(history));
  }

  lemma NewestStaysOpen(
    sha: Hash, c: Config, v: View, history: seq<State>, r: Round, secret: seq<byte>, theirHash: seq<byte>)
    requires HonestParty(sha, c, v, history) && Playable(history, r)
    ensures NewestOpens(sha, c, v, Opened(sha, c, v.slots, Decimal.Text(r.version), secret, theirHash), Last(history))
  {
    if history != [] { OpeningKeepsLast(sha, c, v, history, r, secret, theirHash); }
  }

  /** The stores after the five calls are those of honest parties with the longer history. */
  lemma BothStoresKeep(
    sha: Hash, cp: Config, cc: Config, p: View, c: View, history: seq<State>, r: Round, s: State)
    requires Counterparts(cp, cc) && cp.party == r.proposer && Playable(history, r)
    requires HonestParty(sha, cp, p, history) && HonestParty(sha, cc, c, history)
    requires s == RoundState(sha, cp, r) == RoundState(sha, cc, r)
    ensures HonestStore(sha, cp,
              AfterRound(sha, cp, p.slots, history, s.version.text, r.proposerSecret, sha(r.otherSecret),
              OldSecret(cc, c)), history + [s])
    ensures HonestStore(sha, cc,
              AfterRound(sha, cc, c.slots, history, s.version.text, r.otherSecret, sha(r.proposerSecret),
              OldSecret(cp, p)), history + [s])
    ensures history != [] ==> sha(OldSecret(cp, p)) == history[|history| - 1].Bare().Commit(cp.party)
    ensures history != [] ==> sha(OldSecret(cc, c)) == history[|history| - 1].Bare().Commit(cc.party)
  {
    if history != [] {
      LastIsRecorded(sha, cp, p, history);
      LastIsRecorded(sha, cc, c, history);
    }
    RoundKeepsStore(sha, cp, p.slots, history, s, r, r.proposerSecret, OldSecret(cc, c));
    RoundKeepsStore(sha, cc, c.slots, history, s, r, r.otherSecret, OldSecret(cp, p));
  }

  lemma RoundSucceeds(sha: Hash, cp: Config, cc: Config, p: View, c: View, history: seq<State>, r: Round)
    requires Counterparts(cp, cc) && cp.party == r.proposer && Playable(history, r)
    requires HonestParty(sha, cp, p, history) && HonestParty(sha, cc, c, history)
    ensures var s := RoundState(sha, cp, r);
            var e := Handshake(sha, cp, cc, p, c, r);
            && e.messages ==
                 Some((Ack(cp.channelId, s, Release(cp, p), p.current),
                 Completion(cc.channelId, Release(cc, c), c.current)))
            && HonestParty(sha, cp, e.proposer, history + [s]) && HonestParty(sha, cc, e.other, history + [s])
    ensures history != [] ==> sha(OldSecret(cp, p)) == history[|history| - 1].Bare().Commit(cp.party)
    ensures history != [] ==> sha(OldSecret(cc, c)) == history[|history| - 1].Bare().Commit(cc.party)
  {
    RoundCalls(sha, cp, cc, p, c, history, r);
    HistoryGrows(sha, cp, history, r);
    BothStoresKeep(sha, cp, cc, p, c, history, r, RoundState(sha, cp, r));
  }

  // ----- any number of rounds, each party with its own watchtower

  datatype World = World(a: View, b: View, towerA: Blobs, towerB: Blobs, history: seq<State>)

  const OPENING: World := World(FRESH, FRESH, map[], map[], [])

  /** A party hands what it just received to its watchtower. */
  function RegisterRelease(sha: Hash, blobs: Blobs, revokedState: Option<State>, revealed: Option<Revealed>): Blobs {
    if revokedState.Some? && revealed.Some? && revealed.value.party.Some? && Encodable(revokedState.value.Bare())
    then Register(sha, blobs, revokedState.value, Justice(revealed.value.party.value, revealed.value.secret, ""))
    else blobs
  }

  function PlayRound(sha: Hash, ps: Parties, w: World, r: Round): World {
    var cp, cc := ps.ConfigOf(r.proposer), ps.ConfigOf(r.proposer.Other());
    var e := Handshake(sha, cp, cc, if r.proposer.A? then w.a else w.b, if r.proposer.A? then w.b else w.a, r);
    var a, b := if r.proposer.A? then e.proposer else e.other, if r.proposer.A? then e.other else e.proposer;
    match e.messages
    case None => World(a, b, w.towerA, w.towerB, w.history)
    case Some((ack, completion)) =>
      var fromOther :=
        if r.proposer.A? then (completion.revokedState, completion.revealed) else (ack.revokedState, ack.revealed);
      var fromA :=
        if r.proposer.A? then (ack.revokedState, ack.revealed) else (completion.revokedState, completion.revealed);
      World(a, b, RegisterRelease(sha, w.towerA, fromOther.0, fromOther.1),
        RegisterRelease(sha, w.towerB, fromA.0, fromA.1), w.history + [ack.state])
  }

  function Play(sha: Hash, ps: Parties, rounds: seq<Round>): World {
    if rounds == [] then OPENING else PlayRound(sha, ps, Play(sha, ps, rounds[..|rounds| - 1]), rounds[|rounds| - 1])
  }

  /** Versions grow from round to round and every amount fits its field. */
  ghost predicate AllPlayable(ps: Parties, rounds: seq<Round>) {
    && IsU64(ps.channelId)
    && (forall i ::
         0 <= i < |rounds| ==> IsU64(rounds[i].version) && IsU64(rounds[i].balanceA) && IsU64(rounds[i].balanceB))
    && (forall i, j :: 0 <= i < j < |rounds| ==> rounds[i].version < rounds[j].version)
  }

  /** The states agreed in a list of rounds. */
  function States(sha: Hash, ps: Parties, rounds: seq<Round>): (states: seq<State>)
    requires AllPlayable(ps, rounds)
    ensures |states| == |rounds| &&
              forall i :: 0 <= i < |rounds| ==> states[i] == RoundState(sha, ps.ConfigOf(A), rounds[i])
  {
    seq(|rounds|, i requires 0 <= i < |rounds| => RoundState(sha, ps.ConfigOf(A), rounds[i]))
  }

  lemma StatesGrow(sha: Hash, ps: Parties, rounds: seq<Round>)
    requires AllPlayable(ps, rounds) && rounds != []
    ensures var n := |rounds| - 1;
            && AllPlayable(ps, rounds[..n])
            && States(sha, ps, rounds) == States(sha, ps, rounds[..n]) + [RoundState(sha, ps.ConfigOf(A), rounds[n])]
            && Playable(States(sha, ps, rounds[..n]), rounds[n])
  {
  }

  ghost predicate HonestWorld(sha: Hash, ps: Parties, w: World, history: seq<State>) {
    && w.history == history
    && HonestParty(sha, ps.ConfigOf(A), w.a, history) && HonestParty(sha, ps.ConfigOf(B), w.b, history)
  }

  ghost predicate TowerKnows(sha: Hash, blobs: Blobs, s: State, revealer: Party)
    requires Encodable(s.Bare())
  {
    var found := FindJustice(sha, blobs, s);
    found.Some? && found.value.party == revealer && sha(found.value.revocationSecret) == s.Bare().Commit(revealer)
  }

  ghost predicate TowerInv(sha: Hash, blobs: Blobs, history: seq<State>, revealer: Party)
    requires forall i :: 0 <= i < |history| ==> Encodable(history[i].Bare())
  {
    && (forall i :: 0 <= i < |history| - 1 ==> TowerKnows(sha, blobs, history[i], revealer))
    && (forall hash ::
         hash in blobs ==> exists i :: 0 <= i < |history| - 1 && hash == CommitmentHash(sha, history[i].Bare()))
  }

  ghost function HistoryMessages(history: seq<State>): set<seq<byte>>
    requires forall i :: 0 <= i < |history| ==> Encodable(history[i].Bare())
  {
    set i | 0 <= i < |history| :: SigningMessage(history[i].Bare())
  }

  lemma HashesDiffer(sha: Hash, history: seq<State>, i: nat, j: nat)
    requires History(history) && i < j < |history|
    requires CollisionFree<Digest, seq<byte>>(sha, HistoryMessages(history))
    ensures CommitmentHash(sha, history[i].Bare()) != CommitmentHash(sha, history[j].Bare())
  {
    assert SigningMessage(history[i].Bare()) in HistoryMessages(history) &&
      SigningMessage(history[j].Bare()) in HistoryMessages(history);
    if SigningMessage(history[i].Bare()) == SigningMessage(history[j].Bare()) {
      SigningMessageInjective(history[i].Bare(), history[j].Bare());
    }
  }

  /** `longer` is `history` and one more state. */
  ghost predicate Extends(history: seq<State>, longer: seq<State>) {
    |longer| == |history| + 1 && forall i :: 0 <= i < |history| ==> longer[i] == history[i]
  }

  lemma TowerStillKnows(sha: Hash, blobs: Blobs, history: seq<State>, i: nat, revealer: Party, justice: Justice)
    requires History(history) && CollisionFree<Digest, seq<byte>>(sha, HistoryMessages(history))
    requires i < |history| - 2 && TowerKnows(sha, blobs, history[i], revealer)
    ensures TowerKnows(sha, Register(sha, blobs, history[|history| - 2], justice), history[i], revealer)
  {
    HashesDiffer(sha, history, i, |history| - 2);
  }

  lemma TowerGrows(
    sha: Hash, blobs: Blobs, history: seq<State>, longer: seq<State>, revealer: Party, revealed: Option<Revealed>)
    requires History(longer) && CollisionFree<Digest, seq<byte>>(sha, HistoryMessages(longer))
    requires History(history) && Extends(history, longer) && TowerInv(sha, blobs, history, revealer)
    requires history != [] ==> Released(sha, revealed, revealer, history[|history| - 1])
    ensures TowerInv(sha, RegisterRelease(sha, blobs, Last(history), revealed), longer, revealer)
  {
    var n := |history|;
    if n > 0 {
      var justice := Justice(revealer, revealed.value.secret, "");
      assert longer[n - 1] == history[n - 1];
      var after := Register(sha, blobs, longer[n - 1], justice);
      TowerKeepsKnowing(sha, blobs, history, longer, revealer, justice);
      TowerKeysGrow(sha, blobs, history, longer, revealer, justice);
    }
  }

  lemma TowerKeepsKnowing(
    sha: Hash, blobs: Blobs, history: seq<State>, longer: seq<State>, revealer: Party, justice: Justice)
    requires History(longer) && CollisionFree<Digest, seq<byte>>(sha, HistoryMessages(longer))
    requires History(history) && Extends(history, longer) && history != []
    requires forall i :: 0 <= i < |history| - 1 ==> TowerKnows(sha, blobs, history[i], revealer)
    requires justice.party == revealer && sha(justice.revocationSecret) == longer[|history| - 1].Bare().Commit(revealer)
    ensures forall i ::
              0 <= i < |history| ==>
              TowerKnows(sha, Register(sha, blobs, longer[|history| - 1], justice), longer[i], revealer)
  {
    forall i: nat | i < |history|
      ensures TowerKnows(sha, Register(sha, blobs, longer[|history| - 1], justice), longer[i], revealer)
    {
      if i < |history| - 1 {
        assert longer[i] == history[i];
        TowerStillKnows(sha, blobs, longer, i, revealer, justice);
      }
    }
  }

  lemma TowerKeysGrow(
    sha: Hash, blobs: Blobs, history: seq<State>, longer: seq<State>, revealer: Party, justice: Justice)
    requires History(longer) && History(history) && Extends(history, longer) && history != []
    requires TowerInv(sha, blobs, history, revealer)
    ensures var after := Register(sha, blobs, longer[|history| - 1], justice);
            forall hash ::
              hash in after ==> exists i :: 0 <= i < |longer| - 1 && hash == CommitmentHash(sha, longer[i].Bare())
  {
    var after := Register(sha, blobs, longer[|history| - 1], justice);
    forall hash | hash in after
      ensures exists i :: 0 <= i < |longer| - 1 && hash == CommitmentHash(sha, longer[i].Bare())
    {
      if hash in blobs {
        var i :| 0 <= i < |history| - 1 && hash == CommitmentHash(sha, history[i].Bare());
        assert longer[i] == history[i];
      } else {
        assert hash == CommitmentHash(sha, longer[|history| - 1].Bare());
      }
    }
  }

  /** What one honest round does to the world. */
  lemma PlayRoundSucceeds(sha: Hash, ps: Parties, w: World, r: Round)
    requires IsU64(ps.channelId) && Playable(w.history, r)
    requires HonestParty(sha, ps.ConfigOf(A), w.a, w.history) && HonestParty(sha, ps.ConfigOf(B), w.b, w.history)
    ensures var s := RoundState(sha, ps.ConfigOf(A), r);
            var releaseA, releaseB := Release(ps.ConfigOf(A), w.a), Release(ps.ConfigOf(B), w.b);
            var w' := PlayRound(sha, ps, w, r);
            && w'.history == w.history + [s]
            && HonestParty(sha, ps.ConfigOf(A), w'.a, w.history + [s]) &&
                 HonestParty(sha, ps.ConfigOf(B), w'.b, w.history + [s])
            && w'.towerA == RegisterRelease(sha, w.towerA, Last(w.history), releaseB)
            && w'.towerB == RegisterRelease(sha, w.towerB, Last(w.history), releaseA)
    ensures w.history != [] ==>
              && Released(sha, Release(ps.ConfigOf(A), w.a), A, w.history[|w.history| - 1])
              && Released(sha, Release(ps.ConfigOf(B), w.b), B, w.history[|w.history| - 1])
  {
    if r.proposer.A? {
      RoundSucceeds(sha, ps.ConfigOf(A), ps.ConfigOf(B), w.a, w.b, w.history, r);
    } else {
      RoundSucceeds(sha, ps.ConfigOf(B), ps.ConfigOf(A), w.b, w.a, w.history, r);
      assert RoundState(sha, ps.ConfigOf(B), r) == RoundState(sha, ps.ConfigOf(A), r);
    }
  }

  ghost predicate Released(sha: Hash, revealed: Option<Revealed>, party: Party, s: State) {
    revealed.Some? && revealed.value.party == Some(party) && sha(revealed.value.secret) == s.Bare().Commit(party)
  }

  lemma {:induction false} PlayIsHonest(sha: Hash, ps: Parties, rounds: seq<Round>)
    requires AllPlayable(ps, rounds)
    ensures HonestWorld(sha, ps, Play(sha, ps, rounds), States(sha, ps, rounds))
  {
    if rounds != [] {
      var n := |rounds| - 1;
      StatesGrow(sha, ps, rounds);
      PlayIsHonest(sha, ps, rounds[..n]);
      PlayRoundSucceeds(sha, ps, Play(sha, ps, rounds[..n]), rounds[n]);
    }
  }

  lemma LastRoundOfPlay(sha: Hash, ps: Parties, rounds: seq<Round>)
    requires AllPlayable(ps, rounds) && rounds != []
    ensures AllPlayable(ps, rounds[..|rounds| - 1])
    ensures var n := |rounds| - 1;
            var w, w' := Play(sha, ps, rounds[..n]), Play(sha, ps, rounds);
            && w.history == States(sha, ps, rounds[..n])
            && w'.towerA == RegisterRelease(sha, w.towerA, Last(w.history), Release(ps.ConfigOf(B), w.b))
            && w'.towerB == RegisterRelease(sha, w.towerB, Last(w.history), Release(ps.ConfigOf(A), w.a))
            && (w.history != [] ==>
                  && Released(sha, Release(ps.ConfigOf(A), w.a), A, w.history[|w.history| - 1])
                  && Released(sha, Release(ps.ConfigOf(B), w.b), B, w.history[|w.history| - 1]))
  {
    var n := |rounds| - 1;
    StatesGrow(sha, ps, rounds);
    PlayIsHonest(sha, ps, rounds[..n]);
    PlayRoundSucceeds(sha, ps, Play(sha, ps, rounds[..n]), rounds[n]);
  }

  lemma StatesAreHistory(sha: Hash, ps: Parties, rounds: seq<Round>)
    requires AllPlayable(ps, rounds)
    ensures History(States(sha, ps, rounds))
    ensures rounds != [] ==>
              var n := |rounds| - 1;
              && History(States(sha, ps, rounds[..n])) && Extends(States(sha, ps, rounds[..n]), States(sha, ps, rounds))
              && HistoryMessages(States(sha, ps, rounds[..n])) <= HistoryMessages(States(sha, ps, rounds))
  {
    if rounds != [] {
      var history, longer := States(sha, ps, rounds[..|rounds| - 1]), States(sha, ps, rounds);
      forall i | 0 <= i < |history| ensures SigningMessage(history[i].Bare()) in HistoryMessages(longer) {
        assert longer[i] == history[i];
      }
    }
  }

  lemma {:induction false} TowersKeepUp(sha: Hash, ps: Parties, rounds: seq<Round>)
    requires AllPlayable(ps, rounds) && History(States(sha, ps, rounds))
    requires CollisionFree<Digest, seq<byte>>(sha, HistoryMessages(States(sha, ps, rounds)))
    ensures TowerInv(sha, Play(sha, ps, rounds).towerA, States(sha, ps, rounds), B)
    ensures TowerInv(sha, Play(sha, ps, rounds).towerB, States(sha, ps, rounds), A)
  {
    if rounds != [] {
      var n := |rounds| - 1;
      LastRoundOfPlay(sha, ps, rounds);
      StatesAreHistory(sha, ps, rounds);
      var w := Play(sha, ps, rounds[..n]);
      TowersKeepUp(sha, ps, rounds[..n]);
      TowerGrows(sha, w.towerA, w.history, States(sha, ps, rounds), B, Release(ps.ConfigOf(B), w.b));
      TowerGrows(sha, w.towerB, w.history, States(sha, ps, rounds), A, Release(ps.ConfigOf(A), w.a));
    }
  }

  /** A claim that the contract's `punish` would accept for `s`: for its channel, with the secret of a party. */
  ghost predicate Punishes(sha: Hash, s: State, claim: Option<Claim>) {
    claim.Some? && claim.value.channelId == s.channelId && claim.value.version == s.version &&
      sha(claim.value.revocationSecret) == s.Bare().Commit(claim.value.party)
  }

  lemma ClaimsFollowTheStore(sha: Hash, c: Config, v: View, history: seq<State>, i: nat)
    requires HonestParty(sha, c, v, history) && i < |history| && history[i].channelId == c.channelId
    ensures i < |history| - 1 ==> Punishes(sha, history[i], BuildClaim(v.slots, c.channelId, history[i].version))
    ensures i == |history| - 1 ==> BuildClaim(v.slots, c.channelId, history[i].version) == None
  {
    assert RecordedState(sha, c, v.slots, history[i], i < |history| - 1);
    assert c.party.A? || c.party.B?;
  }

  /** What one store answers for the state at `i`: a punishing claim when it is superseded, none when it is current. */
  ghost predicate StoreAnswers(sha: Hash, slots: Slots, channelId: int, states: seq<State>, i: nat)
    requires i < |states|
  {
    var claim := BuildClaim(slots, channelId, states[i].version);
    if i < |states| - 1 then Punishes(sha, states[i], claim) else claim == None
  }

  /** What one tower answers for the state at `i`: justice when it is superseded, none when it is current. */
  ghost predicate TowerAnswers(sha: Hash, blobs: Blobs, states: seq<State>, i: nat, revealer: Party)
    requires i < |states| && Encodable(states[i].Bare())
  {
    if i < |states| - 1 then TowerKnows(sha, blobs, states[i], revealer) else FindJustice(sha, blobs, states[i]) == None
  }

  lemma TowersKnow(sha: Hash, ps: Parties, rounds: seq<Round>, i: nat)
    requires AllPlayable(ps, rounds) && i < |rounds|
    requires CollisionFree<Digest, seq<byte>>(sha, HistoryMessages(States(sha, ps, rounds)))
    ensures TowerAnswers(sha, Play(sha, ps, rounds).towerA, States(sha, ps, rounds), i, B)
    ensures TowerAnswers(sha, Play(sha, ps, rounds).towerB, States(sha, ps, rounds), i, A)
  {
    StatesAreHistory(sha, ps, rounds);
    TowersKeepUp(sha, ps, rounds);
    OneTowerKnows(sha, Play(sha, ps, rounds).towerA, States(sha, ps, rounds), i, B);
    OneTowerKnows(sha, Play(sha, ps, rounds).towerB, States(sha, ps, rounds), i, A);
  }

  lemma OneTowerKnows(sha: Hash, blobs: Blobs, history: seq<State>, i: nat, revealer: Party)
    requires History(history) && i < |history| && TowerInv(sha, blobs, history, revealer)
    requires CollisionFree<Digest, seq<byte>>(sha, HistoryMessages(history))
    ensures TowerAnswers(sha, blobs, history, i, revealer)
  {
    if i == |history| - 1 { CurrentIsUnknown(sha, blobs, history, revealer); }
  }

  lemma BothCanClaim(sha: Hash, ps: Parties, rounds: seq<Round>, i: nat)
    requires AllPlayable(ps, rounds) && i < |rounds|
    ensures var w, states := Play(sha, ps, rounds), States(sha, ps, rounds);
            && w.a.current == w.b.current == Last(states)
            && StoreAnswers(sha, w.a.slots, ps.channelId, states, i)
            && StoreAnswers(sha, w.b.slots, ps.channelId, states, i)
  {
    var w, states := Play(sha, ps, rounds), States(sha, ps, rounds);
    PlayIsHonest(sha, ps, rounds);
    ClaimsFollowTheStore(sha, ps.ConfigOf(A), w.a, states, i);
    ClaimsFollowTheStore(sha, ps.ConfigOf(B), w.b, states, i);
  }

  lemma CurrentIsUnknown(sha: Hash, blobs: Blobs, history: seq<State>, revealer: Party)
    requires History(history) && history != [] && TowerInv(sha, blobs, history, revealer)
    requires CollisionFree<Digest, seq<byte>>(sha, HistoryMessages(history))
    ensures FindJustice(sha, blobs, history[|history| - 1]) == None
  {
    forall i: nat | i < |history| - 1
      ensures CommitmentHash(sha, history[i].Bare()) != CommitmentHash(sha, history[|history| - 1].Bare())
    {
      HashesDiffer(sha, history, i, |history| - 1);
    }
  }

  /**
   After any number of rounds, with either side proposing each: both parties hold the state of the
   last round; for every superseded state both stores give a punishing claim and both watchtowers
   find justice with the counterparty's secret; for the current state there is neither.
   */
  lemma SupersededIsPunishable(sha: Hash, ps: Parties, rounds: seq<Round>, i: nat)
    requires AllPlayable(ps, rounds) && i < |rounds|
    requires CollisionFree<Digest, seq<byte>>(sha, HistoryMessages(States(sha, ps, rounds)))
    ensures var w, states := Play(sha, ps, rounds), States(sha, ps, rounds);
            && w.a.current == w.b.current == Last(states)
            && StoreAnswers(sha, w.a.slots, ps.channelId, states, i)
            && StoreAnswers(sha, w.b.slots, ps.channelId, states, i)
            && TowerAnswers(sha, w.towerA, states, i, B) && TowerAnswers(sha, w.towerB, states, i, A)
  {
    BothCanClaim(sha, ps, rounds, i);
    TowersKnow(sha, ps, rounds, i);
  }
}
