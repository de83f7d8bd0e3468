/**
 What an honest party keeps in every run of the channel protocol.

 A run is any sequence of calls with any arguments: messages may be lost, repeated, reordered,
 and made up by the counterparty. The one thing nobody can do is produce a signature that the
 honest key did not make (`Made`). Every prefix of a run is a run, so what holds after every run
 holds wherever the counterparty abandons a round.
 */
module ChannelSafety {
  import opened Bytes
  import opened Outcomes
  import opened ChannelState
  import opened Revocation
  import opened Negotiation

  datatype Call =
    | CallPropose(version: Version, balanceA: int, balanceB: int, secret: seq<byte>)
    | CallCounterSign(proposal: Proposal, secret: seq<byte>)
    | CallAck(counterSignature: CounterSignature)
    | CallComplete(ack: Ack)
    | CallFinalize(completion: Completion)

  function Step(sha: Hash, c: Config, v: View, call: Call): View {
    match call
    case CallPropose(version, balanceA, balanceB, secret) => Propose(sha, c, v, version, balanceA, balanceB, secret).0
    case CallCounterSign(proposal, secret) => CounterSign(sha, c, v, proposal, secret).0
    case CallAck(cs) => DoAck(c, v, cs).0
    case CallComplete(ack) => Complete(sha, c, v, ack).0
    case CallFinalize(completion) => Finalize(sha, c, v, completion).0
  }

  function Run(sha: Hash, c: Config, v: View, calls: seq<Call>): View
    decreases |calls|
  {
    if calls == [] then v else Run(sha, c, Step(sha, c, v, calls[0]), calls[1..])
  }

  /** What a negotiator may be built with: no state, or one of the channel that both parties have signed. */
  ghost predicate StartsWell(c: Config, initial: Option<State>) {
    initial.Some? ==> FullySigned(c, initial.value) && initial.value.channelId == c.channelId
  }

  const FRESH: View := StartView(map[], None)

  /** An ideal signature: if it is by the party's own key, the party made it. */
  ghost predicate Made(key: Key, v: View, signature: Option<Signature>) {
    signature.Some? && signature.value.key == key ==>
      exists i ::
        0 <= i < |v.signLog| && Encodable(v.signLog[i].body) && signature.value == Sign(v.signLog[i].body, key)
  }

  ghost predicate SignaturesMade(key: Key, v: View, s: State) {
    Made(key, v, s.sigA) && Made(key, v, s.sigB)
  }

  ghost predicate Deliverable(key: Key, v: View, call: Call) {
    match call
    case CallAck(cs) => Made(key, v, Some(cs.signature))
    case CallComplete(ack) => SignaturesMade(key, v, ack.state)
    case _ => true
  }

  ghost predicate Possible(sha: Hash, c: Config, v: View, calls: seq<Call>)
    decreases |calls|
  {
    calls != [] ==> Deliverable(c.key, v, calls[0]) && Possible(sha, c, Step(sha, c, v, calls[0]), calls[1..])
  }

  // ----- the invariant

  ghost predicate BothCommitted(c: Config, v: View, text: string) {
    Slot(c.channelId, text, A) in v.slots && Slot(c.channelId, text, B) in v.slots
  }

  /** The version is not above the one that is held: nothing will be signed for it again. */
  predicate Reached(v: View, version: Version) {
    v.current.Some? && version.num <= v.current.value.version.num
  }

  /**
   A signature is made only after both commitments of its version are on record, but for the state
   that the party started from; and no version is signed twice.
   */
  ghost predicate LogInv(c: Config, v: View) {
    && (forall i :: 0 <= i < |v.signLog| ==>
          && Encodable(v.signLog[i].body) && v.signLog[i].body.channelId == c.channelId
          && v.signLog[i].body.version == v.signLog[i].version.num
          && (BothCommitted(c, v, v.signLog[i].version.text) || Reached(v, v.signLog[i].version)))
    && (forall i, j :: 0 <= i < j < |v.signLog| ==> v.signLog[i].version != v.signLog[j].version)
  }

  ghost predicate PendingInv(c: Config, v: View) {
    match v.pending
    case NoPending => true
    case Proposer(p) =>
      p.channelId == c.channelId && p.proposerParty == Some(c.party) &&
        Slot(c.channelId, p.version.text, c.party) in v.slots && !Stale(v, p.version)
    case Counterparty(s) => !Stale(v, s.version)
  }

  ghost predicate CurrentInv(c: Config, v: View) {
    && (v.current.Some? ==> FullySigned(c, v.current.value) && v.current.value.channelId == c.channelId)
    && (v.revealLog != [] ==> v.current.Some?)
    && (forall i :: 0 <= i < |v.revealLog| ==> v.revealLog[i].version.num < v.current.value.version.num)
  }

  ghost predicate Inv(c: Config, v: View) {
    LogInv(c, v) && PendingInv(c, v) && CurrentInv(c, v)
  }

  /** Signing keeps the log in order if the two commitments were completed just before. */
  lemma SigningKeepsLog(c: Config, v: View, w: View, version: Version, body: Body)
    requires LogInv(c, v) && v.slots.Keys <= w.slots.Keys && w.current == v.current && !Stale(v, version)
    requires !BothCommitted(c, v, version.text) && BothCommitted(c, w, version.text)
    requires Encodable(body) && body.channelId == c.channelId && body.version == version.num
    requires w.signLog == v.signLog + [Signed(version, body)]
    ensures LogInv(c, w)
  {
    forall i | 0 <= i < |v.signLog|
      ensures BothCommitted(c, w, v.signLog[i].version.text) || Reached(w, v.signLog[i].version)
      ensures v.signLog[i].version != version
    {
      assert BothCommitted(c, v, v.signLog[i].version.text) || Reached(v, v.signLog[i].version);
    }
  }

  lemma MoreSlotsKeepInv(c: Config, v: View, slots: Slots)
    requires Inv(c, v) && v.slots.Keys <= slots.Keys
    ensures Inv(c, v.(slots := slots))
  {
    var w := v.(slots := slots);
    assert w.signLog == v.signLog && w.revealLog == v.revealLog;
    forall i | 0 <= i < |v.signLog|
      ensures BothCommitted(c, w, v.signLog[i].version.text) || Reached(w, v.signLog[i].version)
    {
      assert BothCommitted(c, v, v.signLog[i].version.text) || Reached(v, v.signLog[i].version);
    }
  }

  lemma CounterSignKeepsInv(sha: Hash, c: Config, v: View, p: Proposal, secret: seq<byte>)
    requires Inv(c, v)
    ensures Inv(c, CounterSign(sha, c, v, p, secret).0)
  {
    var recorded := RecordCommitment(v.slots, c.channelId, p.version.text, p.proposerParty, p.proposerCommitmentHash);
    if recorded.Ok? && p.proposerParty != Some(c.party) && p.channelId == c.channelId && !Stale(v, p.version) {
      assert p.proposerParty == Some(c.party.Other()) by {
        assert p.proposerParty.value.A? || p.proposerParty.value.B?;
      }
      var committed := Commit(sha, recorded.value, Slot(c.channelId, p.version.text, c.party), secret);
      MoreSlotsKeepInv(c, v, recorded.value);
      if committed.Ok? {
        MoreSlotsKeepInv(c, v, committed.value);
        var commits := Commits(c.party, sha(secret), p.proposerCommitmentHash);
        var state := CreateState(c.channelId, p.version, p.balanceA, p.balanceB, commits.0, commits.1);
        if state.Some? {
          SigningKeepsLog(c, v, CounterSign(sha, c, v, p, secret).0, p.version, state.value.Bare());
        }
      }
    }
  }

  /** Adopting a fully signed, newer state: its predecessor is the only version revealed. */
  lemma AdoptKeepsInv(c: Config, v: View, next: State)
    requires LogInv(c, v) && PendingInv(c, v) && CurrentInv(c, v)
    requires FullySigned(c, next) && next.channelId == c.channelId && !Stale(v, next.version)
    ensures Inv(c, Adopt(c, v, next).0)
  {
    var w := Adopt(c, v, next).0;
    assert forall i :: 0 <= i < |v.revealLog| ==> v.revealLog[i].version.num < v.current.value.version.num;
  }

  lemma AckKeepsInv(c: Config, v: View, cs: CounterSignature)
    requires Inv(c, v)
    ensures Inv(c, DoAck(c, v, cs).0)
  {
    if v.pending.Proposer? {
      var p := v.pending.proposal;
      var recorded := RecordCommitment(v.slots, c.channelId, p.version.text, Some(c.party.Other()), cs.commitmentHash);
      if recorded.Ok? {
        var v1 := v.(slots := recorded.value);
        MoreSlotsKeepInv(c, v, recorded.value);
        var unsigned := Combine(c, p, cs.commitmentHash);
        if unsigned.Some? && cs.signature == Sign(unsigned.value.Bare(), c.counterpartyKey) {
          var v2 := v1.(signLog := v.signLog + [Signed(p.version, unsigned.value.Bare())]);
          SigningKeepsLog(c, v, v2, p.version, unsigned.value.Bare());
          if FullySigned(c, Assemble(c, unsigned.value, cs.signature)) {
            AdoptKeepsInv(c, v2, Assemble(c, unsigned.value, cs.signature));
          }
        }
      }
    }
  }

  lemma CompleteKeepsInv(sha: Hash, c: Config, v: View, ack: Ack)
    requires Inv(c, v)
    ensures Inv(c, Complete(sha, c, v, ack).0)
  {
    var recorded := RecordIfRevealed(sha, c, v.slots, ack.revealed);
    if recorded.Ok? && v.pending.Counterparty? && FullySigned(c, ack.state) && ack.state.channelId == c.channelId
       && ack.state.version.num == v.pending.state.version.num {
      MoreSlotsKeepInv(c, v, recorded.value);
      AdoptKeepsInv(c, v.(slots := recorded.value), ack.state);
    }
  }

  lemma StepKeepsInv(sha: Hash, c: Config, v: View, call: Call)
    requires Inv(c, v)
    ensures Inv(c, Step(sha, c, v, call))
  {
    match call
    case CallPropose(version, balanceA, balanceB, secret) =>
    case CallCounterSign(p, secret) => CounterSignKeepsInv(sha, c, v, p, secret);
    case CallAck(cs) => AckKeepsInv(c, v, cs);
    case CallComplete(ack) => CompleteKeepsInv(sha, c, v, ack);
    case CallFinalize(completion) => MoreSlotsKeepInv(c, v, Finalize(sha, c, v, completion).0.slots);
  }

  lemma {:induction false} RunKeepsInv(sha: Hash, c: Config, v: View, calls: seq<Call>)
    requires Inv(c, v)
    ensures Inv(c, Run(sha, c, v, calls))
    decreases |calls|
  {
    if calls != [] {
      StepKeepsInv(sha, c, v, calls[0]);
      RunKeepsInv(sha, c, Step(sha, c, v, calls[0]), calls[1..]);
    }
  }

  lemma StartKeepsInv(c: Config, slots: Slots, initial: Option<State>)
    requires StartsWell(c, initial)
    ensures Inv(c, StartView(slots, initial))
  {
  }

  // ----- reveal safety

  /**
   After any run, and so at any point where a round is abandoned: every version this party has
   revealed lies strictly below the state it holds, and that state is signed by both parties.
   */
  lemma RevealSafety(sha: Hash, c: Config, slots: Slots, initial: Option<State>, calls: seq<Call>)
    requires StartsWell(c, initial)
    ensures var v := Run(sha, c, StartView(slots, initial), calls);
            && (v.current.Some? ==> Verify(v.current.value, c.KeyOf(A), c.KeyOf(B)).OK?)
            && (v.revealLog != [] ==> v.current.Some?)
            && (forall i :: 0 <= i < |v.revealLog| ==> v.revealLog[i].version.num < v.current.value.version.num)
  {
    StartKeepsInv(c, slots, initial);
    RunKeepsInv(sha, c, StartView(slots, initial), calls);
  }

  /** A secret leaves only in the message of the step that reveals it, after its successor was adopted. */
  lemma SecretsLeaveOnlyWhenSuperseded(sha: Hash, c: Config, v: View, cs: CounterSignature, ack: Ack)
    requires Inv(c, v)
    ensures var (w, r) := DoAck(c, v, cs);
            r.Ok? && r.value.revealed.Some? ==>
              w.current == Some(r.value.state) && r.value.revealed.value.version.num < w.current.value.version.num &&
              w.revealLog == v.revealLog + [r.value.revealed.value]
    ensures var (w, r) := Complete(sha, c, v, ack);
            r.Ok? && r.value.revealed.Some? ==>
              w.current == Some(ack.state) && r.value.revealed.value.version.num < w.current.value.version.num &&
              w.revealLog == v.revealLog + [r.value.revealed.value]
    ensures DoAck(c, v, cs).1.Err? ==>
              DoAck(c, v, cs).0.revealLog == v.revealLog && DoAck(c, v, cs).0.current == v.current
    ensures Complete(sha, c, v, ack).1.Err? ==>
              Complete(sha, c, v, ack).0.revealLog == v.revealLog && Complete(sha, c, v, ack).0.current == v.current
  {
  }

  /** Of the same channel, with a higher number and the signatures of both parties. */
  ghost predicate Newer(c: Config, earlier: State, later: State) {
    && later.channelId == earlier.channelId && earlier.version.num < later.version.num && Encodable(later.Bare())
    && later.sigA == Some(Sign(later.Bare(), c.KeyOf(A))) && later.sigB == Some(Sign(later.Bare(), c.KeyOf(B)))
  }

  /** `later` is `earlier`, or a chain of supersessions leads to it. */
  ghost predicate NoEarlier(c: Config, earlier: Option<State>, later: Option<State>) {
    earlier.Some? ==>
      later.Some? && (later == earlier ||
                      (Newer(c, earlier.value, later.value) &&
                       Supersedes(later.value, earlier.value, c.KeyOf(A), c.KeyOf(B)) == Some(true)))
  }

  lemma StepSupersedes(sha: Hash, c: Config, v: View, call: Call)
    requires Inv(c, v)
    ensures NoEarlier(c, v.current, Step(sha, c, v, call).current)
  {
    StepKeepsInv(sha, c, v, call);
  }

  /** The state a party holds is only ever replaced by one that supersedes it. */
  lemma {:induction false} RunSupersedes(sha: Hash, c: Config, v: View, calls: seq<Call>)
    requires Inv(c, v)
    ensures NoEarlier(c, v.current, Run(sha, c, v, calls).current)
    decreases |calls|
  {
    if calls != [] {
      var w := Step(sha, c, v, calls[0]);
      StepSupersedes(sha, c, v, calls[0]);
      StepKeepsInv(sha, c, v, calls[0]);
      RunSupersedes(sha, c, w, calls[1..]);
      RunKeepsInv(sha, c, w, calls[1..]);
    }
  }

  // ----- agreement

  /** The same number is always written the same way: true of versions that are JavaScript numbers. */
  ghost predicate OneSpelling(versions: iset<Version>) {
    forall v, w :: v in versions && w in versions && v.num == w.num && IsU64(v.num) ==> v.text == w.text
  }

  ghost predicate AsksFor(call: Call, versions: iset<Version>) {
    && (call.CallPropose? ==> call.version in versions)
    && (call.CallCounterSign? ==> call.proposal.version in versions)
  }

  ghost predicate Asks(calls: seq<Call>, versions: iset<Version>) {
    forall i :: 0 <= i < |calls| ==> AsksFor(calls[i], versions)
  }

  ghost predicate LogWithin(v: View, versions: iset<Version>) {
    && (v.pending.Proposer? ==> v.pending.proposal.version in versions)
    && (forall i :: 0 <= i < |v.signLog| ==> v.signLog[i].version in versions)
  }

  lemma CounterSignLogsWithin(sha: Hash, c: Config, v: View, p: Proposal, secret: seq<byte>, versions: iset<Version>)
    requires LogWithin(v, versions) && p.version in versions
    ensures LogWithin(CounterSign(sha, c, v, p, secret).0, versions)
  {
  }

  lemma AdoptLogsWithin(c: Config, v: View, next: State, versions: iset<Version>)
    requires LogWithin(v, versions)
    ensures LogWithin(Adopt(c, v, next).0, versions)
  {
  }

  lemma AckLogsWithin(c: Config, v: View, cs: CounterSignature, versions: iset<Version>)
    requires LogWithin(v, versions)
    ensures LogWithin(DoAck(c, v, cs).0, versions)
  {
    if v.pending.Proposer? {
      var p := v.pending.proposal;
      var recorded := RecordCommitment(v.slots, c.channelId, p.version.text, Some(c.party.Other()), cs.commitmentHash);
      var unsigned := Combine(c, p, cs.commitmentHash);
      if recorded.Ok? && unsigned.Some? {
        var w := v.(slots := recorded.value, signLog := v.signLog + [Signed(p.version, unsigned.value.Bare())]);
        AdoptLogsWithin(c, w, Assemble(c, unsigned.value, cs.signature), versions);
      }
    }
  }

  lemma CompleteLogsWithin(sha: Hash, c: Config, v: View, ack: Ack, versions: iset<Version>)
    requires LogWithin(v, versions)
    ensures LogWithin(Complete(sha, c, v, ack).0, versions)
  {
    var recorded := RecordIfRevealed(sha, c, v.slots, ack.revealed);
    if recorded.Ok? { AdoptLogsWithin(c, v.(slots := recorded.value), ack.state, versions); }
  }

  lemma StepLogsWithin(sha: Hash, c: Config, v: View, call: Call, versions: iset<Version>)
    requires LogWithin(v, versions) && AsksFor(call, versions)
    ensures LogWithin(Step(sha, c, v, call), versions)
  {
    match call
    case CallPropose(_, _, _, _) =>
    case CallCounterSign(p, secret) => CounterSignLogsWithin(sha, c, v, p, secret, versions);
    case CallAck(cs) => AckLogsWithin(c, v, cs, versions);
    case CallComplete(ack) => CompleteLogsWithin(sha, c, v, ack, versions);
    case CallFinalize(_) =>
  }

  lemma {:induction false} RunLogsWithin(sha: Hash, c: Config, v: View, calls: seq<Call>, versions: iset<Version>)
    requires LogWithin(v, versions) && Asks(calls, versions)
    ensures LogWithin(Run(sha, c, v, calls), versions)
    decreases |calls|
  {
    if calls != [] {
      StepLogsWithin(sha, c, v, calls[0], versions);
      RunLogsWithin(sha, c, Step(sha, c, v, calls[0]), calls[1..], versions);
    }
  }

  /** At most one body signed per version number. */
  ghost predicate SignsOnePerNumber(v: View) {
    forall i, j ::
      0 <= i < |v.signLog| && 0 <= j < |v.signLog| && v.signLog[i].body.version == v.signLog[j].body.version ==>
                     v.signLog[i].body == v.signLog[j].body
  }

  lemma OneSpellingSignsOnce(c: Config, v: View, versions: iset<Version>)
    requires Inv(c, v) && LogWithin(v, versions) && OneSpelling(versions)
    ensures SignsOnePerNumber(v)
  {
    forall i, j | 0 <= i < |v.signLog| && 0 <= j < |v.signLog| && v.signLog[i].body.version == v.signLog[j].body.version
      ensures i == j
    {
      assert v.signLog[i].version.text == v.signLog[j].version.text;
    }
  }

  function NoHash(): Digest {
    seq(HASH_BYTES, _ => 0)
  }

  /** Two proposals for one number, spelled differently: both are signed, whatever secrets the party draws. */
  lemma TwoSpellingsSignTwice(sha: Hash, c: Config, x: Version, y: Version, secretX: seq<byte>, secretY: seq<byte>)
    returns (calls: seq<Call>)
    requires IsU64(c.channelId) && IsU64(x.num) && x.num == y.num && x.text != y.text
    ensures |calls| == 2
    ensures calls[0] == CallCounterSign(Proposal(c.channelId, x, 0, 0, Some(c.party.Other()), NoHash()), secretX)
    ensures calls[1] == CallCounterSign(Proposal(c.channelId, y, 0, 1, Some(c.party.Other()), NoHash()), secretY)
    ensures !SignsOnePerNumber(Run(sha, c, FRESH, calls))
  {
    var p := Proposal(c.channelId, x, 0, 0, Some(c.party.Other()), NoHash());
    var q := Proposal(c.channelId, y, 0, 1, Some(c.party.Other()), NoHash());
    calls := [CallCounterSign(p, secretX), CallCounterSign(q, secretY)];
    var v := CounterSign(sha, c, FRESH, p, secretX).0;
    var w := CounterSign(sha, c, v, q, secretY).0;
    assert |v.signLog| == 1 && v.signLog[0].body.balanceB == 0 && v.current == None;
    assert |w.signLog| == 2 && w.signLog[0] == v.signLog[0] && w.signLog[1].body.balanceB == 1;
    assert Run(sha, c, FRESH, calls) == Run(sha, c, v, calls[1..]) == Run(sha, c, w, calls[1..][1..]) == w;
  }

  /**
   A party signs at most one state per version number in every run over `versions` exactly when
   no number has two spellings there. Slots are keyed by String(version), all comparisons are by
   Number(version).
   */
  lemma AgreementExactly(sha: Hash, c: Config, versions: iset<Version>)
    requires IsU64(c.channelId)
    ensures (forall calls ::
              Asks(calls, versions) && Possible(sha, c, FRESH, calls) ==> SignsOnePerNumber(Run(sha, c, FRESH, calls)))
            <==> OneSpelling(versions)
  {
    if OneSpelling(versions) {
      forall calls | Asks(calls, versions) ensures SignsOnePerNumber(Run(sha, c, FRESH, calls)) {
        RunKeepsInv(sha, c, FRESH, calls);
        RunLogsWithin(sha, c, FRESH, calls, versions);
        OneSpellingSignsOnce(c, Run(sha, c, FRESH, calls), versions);
      }
    } else {
      var x, y :| x in versions && y in versions && x.num == y.num && IsU64(x.num) && x.text != y.text;
      var calls := TwoSpellingsSignTwice(sha, c, x, y, NoHash(), NoHash());
      assert Asks(calls, versions);
      assert Possible(sha, c, Step(sha, c, FRESH, calls[0]), calls[1..]);
      assert Possible(sha, c, FRESH, calls);
    }
  }

  /** A fully signed state that really exists carries a body from this party's log. */
  lemma FullySignedIsLogged(c: Config, v: View, s: State) returns (i: nat)
    requires FullySigned(c, s) && SignaturesMade(c.key, v, s)
    ensures i < |v.signLog| && v.signLog[i].body == s.Bare()
  {
    var own := if c.party.A? then s.sigA else s.sigB;
    assert own == Some(Sign(s.Bare(), c.key)) && Made(c.key, v, own);
    i :| 0 <= i < |v.signLog| && Encodable(v.signLog[i].body) && own.value == Sign(v.signLog[i].body, c.key);
    SigningMessageInjective(v.signLog[i].body, s.Bare());
  }

  ghost predicate StartsWithin(initial: Option<State>, versions: iset<Version>) {
    initial.Some? ==> initial.value.version in versions
  }

  /** One honest party is enough: no two different states of one version are ever fully signed. */
  lemma Agreement(
    sha: Hash, c: Config, slots: Slots, initial: Option<State>, calls: seq<Call>, versions: iset<Version>, s: State,
      t: State)
    requires StartsWell(c, initial) && StartsWithin(initial, versions)
    requires Asks(calls, versions) && OneSpelling(versions)
    requires FullySigned(c, s) && SignaturesMade(c.key, Run(sha, c, StartView(slots, initial), calls), s)
    requires FullySigned(c, t) && SignaturesMade(c.key, Run(sha, c, StartView(slots, initial), calls), t)
    requires s.version.num == t.version.num
    ensures s.Bare() == t.Bare()
  {
    var v := Run(sha, c, StartView(slots, initial), calls);
    StartKeepsInv(c, slots, initial);
    RunKeepsInv(sha, c, StartView(slots, initial), calls);
    RunLogsWithin(sha, c, StartView(slots, initial), calls, versions);
    OneSpellingSignsOnce(c, v, versions);
    var i := FullySignedIsLogged(c, v, s);
    var j := FullySignedIsLogged(c, v, t);
  }

  // ----- two honest parties and a hostile network

  datatype System = System(a: View, b: View)

  datatype Move = ByA(call: Call) | ByB(call: Call)

  datatype Parties = Parties(channelId: int, keyA: Key, keyB: Key) {
    function ConfigOf(party: Party): Config {
      if party.A? then Config(channelId, A, keyA, keyB) else Config(channelId, B, keyB, keyA)
    }
  }

  function SystemStep(sha: Hash, ps: Parties, s: System, move: Move): System {
    match move
    case ByA(call) => s.(a := Step(sha, ps.ConfigOf(A), s.a, call))
    case ByB(call) => s.(b := Step(sha, ps.ConfigOf(B), s.b, call))
  }

  function SystemRun(sha: Hash, ps: Parties, s: System, moves: seq<Move>): System
    decreases |moves|
  {
    if moves == [] then s else SystemRun(sha, ps, SystemStep(sha, ps, s, moves[0]), moves[1..])
  }

  /** The calls that reach one party. */
  function CallsOf(moves: seq<Move>, party: Party): seq<Call>
    decreases |moves|
  {
    if moves == [] then [] else
      (if moves[0].ByA? == party.A? then [moves[0].call] else []) + CallsOf(moves[1..], party)
  }

  lemma RunFirst(sha: Hash, c: Config, v: View, call: Call, rest: seq<Call>)
    ensures Run(sha, c, v, [call] + rest) == Run(sha, c, Step(sha, c, v, call), rest)
  {
    assert ([call] + rest)[1..] == rest;
  }

  /** Each party goes through a run of its own, whatever happens to the other. */
  lemma {:induction false} SystemRunIsTwoRuns(sha: Hash, ps: Parties, s: System, moves: seq<Move>)
    ensures var r := SystemRun(sha, ps, s, moves);
            && r.a == Run(sha, ps.ConfigOf(A), s.a, CallsOf(moves, A))
            && r.b == Run(sha, ps.ConfigOf(B), s.b, CallsOf(moves, B))
    decreases |moves|
  {
    if moves != [] {
      SystemRunIsTwoRuns(sha, ps, SystemStep(sha, ps, s, moves[0]), moves[1..]);
      if moves[0].ByA? {
        RunFirst(sha, ps.ConfigOf(A), s.a, moves[0].call, CallsOf(moves[1..], A));
        assert CallsOf(moves, B) == CallsOf(moves[1..], B);
      } else {
        RunFirst(sha, ps.ConfigOf(B), s.b, moves[0].call, CallsOf(moves[1..], B));
        assert CallsOf(moves, A) == CallsOf(moves[1..], A);
      }
    }
  }

  /** Messages may be anything that carries no signature the two parties did not make. */
  ghost predicate SystemPossible(sha: Hash, ps: Parties, s: System, moves: seq<Move>)
    decreases |moves|
  {
    moves != [] ==>
      Deliverable(ps.keyA, s.a, moves[0].call) && Deliverable(ps.keyB, s.b, moves[0].call) &&
      SystemPossible(sha, ps, SystemStep(sha, ps, s, moves[0]), moves[1..])
  }

  ghost predicate HeldMade(key: Key, v: View, held: View) {
    held.current.Some? ==> SignaturesMade(key, v, held.current.value)
  }

  /** Each party's log accounts for every signature by its key in the states either party holds. */
  ghost predicate SystemInv(ps: Parties, s: System, versions: iset<Version>) {
    && Inv(ps.ConfigOf(A), s.a) && Inv(ps.ConfigOf(B), s.b)
    && LogWithin(s.a, versions) && LogWithin(s.b, versions)
    && HeldMade(ps.keyA, s.a, s.a) && HeldMade(ps.keyA, s.a, s.b)
    && HeldMade(ps.keyB, s.b, s.a) && HeldMade(ps.keyB, s.b, s.b)
  }

  lemma LogGrows(sha: Hash, c: Config, v: View, call: Call)
    ensures v.signLog <= Step(sha, c, v, call).signLog
  {
  }

  lemma MadeStays(key: Key, v: View, w: View, held: View)
    requires v.signLog <= w.signLog && HeldMade(key, v, held)
    ensures HeldMade(key, w, held)
  {
    if held.current.Some? {
      forall signature | signature == held.current.value.sigA || signature == held.current.value.sigB
        ensures Made(key, w, signature)
      {
        if signature.Some? && signature.value.key == key {
          assert Made(key, v, signature);
          var i :|
            0 <= i < |v.signLog| && Encodable(v.signLog[i].body) && signature.value == Sign(v.signLog[i].body, key);
          assert w.signLog[i] == v.signLog[i];
        }
      }
    }
  }

  /** What an acknowledgement adopts: the delivered signature, and one over the body it has just logged. */
  lemma AckedIs(c: Config, v: View, cs: CounterSignature)
    requires DoAck(c, v, cs).0.current != v.current
    ensures var w := DoAck(c, v, cs).0;
            && v.pending.Proposer? && |w.signLog| == |v.signLog| + 1 && Encodable(w.signLog[|v.signLog|].body)
            && var body := w.signLog[|v.signLog|].body;
            && w.current.Some? && cs.signature == Sign(body, c.counterpartyKey)
            && {w.current.value.sigA, w.current.value.sigB} == {Some(cs.signature), Some(Sign(body, c.key))}
  {
  }

  lemma AckedIsMade(c: Config, v: View, cs: CounterSignature, key: Key, log: View)
    requires Made(key, log, Some(cs.signature)) && DoAck(c, v, cs).0.current != v.current
    requires key == c.key ==> log == v
    requires key == c.key || key == c.counterpartyKey
    ensures HeldMade(key, if key == c.key then DoAck(c, v, cs).0 else log, DoAck(c, v, cs).0)
  {
    var w := DoAck(c, v, cs).0;
    AckedIs(c, v, cs);
    var body, held := w.signLog[|v.signLog|].body, w.current.value;
    assert held.sigA in {held.sigA, held.sigB} && held.sigB in {held.sigA, held.sigB};
    if key == c.key {
      assert Made(key, w, Some(Sign(body, c.key)));
      assert Made(key, w, Some(cs.signature));
    } else {
      assert Made(key, log, Some(Sign(body, c.key)));
    }
  }

  /** The state a step adopts carries the delivered signatures and one that is now in the log. */
  lemma AdoptedIsMade(sha: Hash, c: Config, v: View, call: Call, key: Key, log: View)
    requires Inv(c, v) && Deliverable(key, log, call) && Step(sha, c, v, call).current != v.current
    requires key == c.key ==> log == v
    requires key == c.key || key == c.counterpartyKey
    ensures HeldMade(key, if key == c.key then Step(sha, c, v, call) else log, Step(sha, c, v, call))
  {
    var w := Step(sha, c, v, call);
    LogGrows(sha, c, v, call);
    match call
    case CallPropose(_, _, _, _) =>
    case CallCounterSign(_, _) =>
    case CallFinalize(_) =>
    case CallComplete(ack) =>
      assert HeldMade(key, log, w);
      if key == c.key { MadeStays(key, v, w, w); }
    case CallAck(cs) => AckedIsMade(c, v, cs, key, log);
  }

  lemma SystemStepKeepsInv(sha: Hash, ps: Parties, s: System, move: Move, versions: iset<Version>)
    requires SystemInv(ps, s, versions) && AsksFor(move.call, versions)
    requires Deliverable(ps.keyA, s.a, move.call) && Deliverable(ps.keyB, s.b, move.call)
    requires ps.keyA != ps.keyB
    ensures SystemInv(ps, SystemStep(sha, ps, s, move), versions)
  {
    var t := SystemStep(sha, ps, s, move);
    var c := ps.ConfigOf(if move.ByA? then A else B);
    var v := if move.ByA? then s.a else s.b;
    StepKeepsInv(sha, c, v, move.call);
    StepLogsWithin(sha, c, v, move.call, versions);
    LogGrows(sha, c, v, move.call);
    MadeStays(ps.keyA, s.a, t.a, s.a);
    MadeStays(ps.keyA, s.a, t.a, s.b);
    MadeStays(ps.keyB, s.b, t.b, s.a);
    MadeStays(ps.keyB, s.b, t.b, s.b);
    if Step(sha, c, v, move.call).current != v.current {
      AdoptedIsMade(sha, c, v, move.call, ps.keyA, s.a);
      AdoptedIsMade(sha, c, v, move.call, ps.keyB, s.b);
    }
  }

  ghost predicate MovesAsk(moves: seq<Move>, versions: iset<Version>) {
    forall i :: 0 <= i < |moves| ==> AsksFor(moves[i].call, versions)
  }

  lemma {:induction false} SystemRunKeepsInv(
    sha: Hash, ps: Parties, s: System, moves: seq<Move>, versions: iset<Version>)
    requires SystemInv(ps, s, versions) && MovesAsk(moves, versions) && SystemPossible(sha, ps, s, moves)
    requires ps.keyA != ps.keyB
    ensures SystemInv(ps, SystemRun(sha, ps, s, moves), versions)
    decreases |moves|
  {
    if moves != [] {
      SystemStepKeepsInv(sha, ps, s, moves[0], versions);
      SystemRunKeepsInv(sha, ps, SystemStep(sha, ps, s, moves[0]), moves[1..], versions);
    }
  }

  /** Two negotiators over stores of their own, both built with the same state to start from, or without one. */
  function SystemStart(slotsA: Slots, slotsB: Slots, initial: Option<State>): System {
    System(StartView(slotsA, initial), StartView(slotsB, initial))
  }

  lemma StartIsMade(key: Key, slots: Slots, held: View, initial: State)
    requires Encodable(initial.Bare()) && held.current == Some(initial)
    requires forall signature :: signature == initial.sigA || signature == initial.sigB ==>
               signature.Some? && (signature.value.key == key ==> signature.value == Sign(initial.Bare(), key))
    ensures HeldMade(key, StartView(slots, Some(initial)), held)
  {
    assert StartView(slots, Some(initial)).signLog[0].body == initial.Bare();
  }

  lemma SystemStartKeepsInv(ps: Parties, slotsA: Slots, slotsB: Slots, initial: Option<State>, versions: iset<Version>)
    requires StartsWell(ps.ConfigOf(A), initial) && StartsWell(ps.ConfigOf(B), initial)
    requires StartsWithin(initial, versions) && ps.keyA != ps.keyB
    ensures SystemInv(ps, SystemStart(slotsA, slotsB, initial), versions)
  {
    StartKeepsInv(ps.ConfigOf(A), slotsA, initial);
    StartKeepsInv(ps.ConfigOf(B), slotsB, initial);
    if initial.Some? {
      var s := SystemStart(slotsA, slotsB, initial);
      StartIsMade(ps.keyA, slotsA, s.a, initial.value);
      StartIsMade(ps.keyA, slotsA, s.b, initial.value);
      StartIsMade(ps.keyB, slotsB, s.a, initial.value);
      StartIsMade(ps.keyB, slotsB, s.b, initial.value);
    }
  }

  /** Whatever the network does, two honest parties at the same version hold the same state. */
  lemma PartiesAgree(
    sha: Hash, ps: Parties, slotsA: Slots, slotsB: Slots, initial: Option<State>, moves: seq<Move>,
    versions: iset<Version>)
    requires StartsWell(ps.ConfigOf(A), initial) && StartsWell(ps.ConfigOf(B), initial)
    requires StartsWithin(initial, versions) && MovesAsk(moves, versions) && OneSpelling(versions) && ps.keyA != ps.keyB
    requires SystemPossible(sha, ps, SystemStart(slotsA, slotsB, initial), moves)
    ensures var s := SystemRun(sha, ps, SystemStart(slotsA, slotsB, initial), moves);
            s.a.current.Some? && s.b.current.Some? && s.a.current.value.version.num == s.b.current.value.version.num ==>
              s.a.current.value.Bare() == s.b.current.value.Bare()
  {
    var s := SystemRun(sha, ps, SystemStart(slotsA, slotsB, initial), moves);
    SystemStartKeepsInv(ps, slotsA, slotsB, initial, versions);
    SystemRunKeepsInv(sha, ps, SystemStart(slotsA, slotsB, initial), moves, versions);
    HeldStatesAgree(ps, s, versions);
  }

  lemma HeldStatesAgree(ps: Parties, s: System, versions: iset<Version>)
    requires SystemInv(ps, s, versions) && OneSpelling(versions)
    ensures s.a.current.Some? && s.b.current.Some? && s.a.current.value.version.num == s.b.current.value.version.num ==>
              s.a.current.value.Bare() == s.b.current.value.Bare()
  {
    if s.a.current.Some? && s.b.current.Some? && s.a.current.value.version.num == s.b.current.value.version.num {
      var c := ps.ConfigOf(A);
      OneSpellingSignsOnce(c, s.a, versions);
      assert FullySigned(c, s.b.current.value);
      var i := FullySignedIsLogged(c, s.a, s.a.current.value);
      var j := FullySignedIsLogged(c, s.a, s.b.current.value);
    }
  }
}
