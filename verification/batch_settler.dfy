/**
 backend/src/protocol/BatchSettler.js and SettlementReconciler.js as methods over the tables, each
 a run of the steps of `Settlement` with nothing in between.
 */
module BatchSettler {
  import opened Outcomes
  import opened Settlement
  import opened SettlementSafety

  /** A stream to settle, with the seconds since its start. */
  datatype Claim = Claim(streamId: int, elapsed: int, ratePerSecond: int)

  function ClaimOn(accounts: map<int, Account>, claim: Claim): int {
    if claim.streamId in accounts then Claimable(accounts[claim.streamId], claim.elapsed, claim.ratePerSecond) else 0
  }

  predicate IsClaim(accounts: map<int, Account>, claim: Claim, amount: int) {
    if claim.streamId in accounts
      then amount == Claimable(accounts[claim.streamId], claim.elapsed, claim.ratePerSecond) else amount == 0
  }

  function Ids(claims: seq<Claim>): (ids: seq<int>)
    ensures |ids| == |claims| && forall i :: 0 <= i < |ids| ==> ids[i] == claims[i].streamId
  {
    seq(|claims|, i requires 0 <= i < |claims| => claims[i].streamId)
  }

  function ClaimsOn(accounts: map<int, Account>, claims: seq<Claim>): (amounts: seq<int>)
    ensures AreClaims(accounts, claims, amounts)
  {
    seq(|claims|, i requires 0 <= i < |claims| => ClaimOn(accounts, claims[i]))
  }

  /** `amounts` are the claims on these accounts. */
  ghost predicate AreClaims(accounts: map<int, Account>, claims: seq<Claim>, amounts: seq<int>) {
    |amounts| == |claims| && forall i :: 0 <= i < |claims| ==>
      amounts[i] == ClaimOn(accounts, claims[i]) && IsClaim(accounts, claims[i], amounts[i])
  }

  ghost predicate DistinctIds(claims: seq<Claim>) {
    forall i, j :: 0 <= i < j < |claims| ==> claims[i].streamId != claims[j].streamId
  }

  lemma {:induction false} ClaimsTake(
    accounts: map<int, Account>, claims: seq<Claim>, amounts: seq<int>, n: nat, id: int)
    requires AreClaims(accounts, claims, amounts) && DistinctIds(claims) && n <= |claims| && id in accounts
    ensures Taken(Ids(claims), amounts, n, id) == 0 ||
              exists i :: 0 <= i < n && claims[i].streamId == id && Taken(Ids(claims), amounts, n, id) == amounts[i]
  {
    if n > 0 { ClaimsTake(accounts, claims, amounts, n - 1, id); }
  }

  /** Claims of different streams fit their deposits, as long as nothing else is withdrawn in between. */
  lemma ClaimsFit(accounts: map<int, Account>, claims: seq<Claim>, amounts: seq<int>)
    requires Funded(accounts) && AreClaims(accounts, claims, amounts) && DistinctIds(claims)
    ensures WithdrawAll(accounts, Ids(claims), amounts, |claims|).Some?
  {
    WithdrawsExactly(accounts, Ids(claims), amounts, |claims|);
    forall id | id in accounts
      ensures accounts[id].withdrawn + Taken(Ids(claims), amounts, |claims|, id) <= accounts[id].deposit
    {
      ClaimsTake(accounts, claims, amounts, |claims|, id);
    }
  }

  // ----- the tables

  /** Where the process stops. */
  datatype StopAfter = Nothing | TheBegin | TheSubmit | TheConfirm | TheWithdraw

  predicate Confirms(before: Row, after: Row) {
    after.status == Confirmed && after == before.(status := Confirmed)
  }

  /**
   A settlement concluded: confirmed and paid exactly when the chain takes it and every deposit
   covers it; else it has failed once more and nobody is paid.
   */
  ghost predicate Settles(
    row: Row, row': Row, accounts: map<int, Account>, accounts': map<int, Account>, streamIds: seq<int>,
    amounts: seq<int>, answered: bool)
  {
    if answered && Covered(accounts, streamIds, amounts, |streamIds|)
      then Confirms(row, row') && Grown(accounts, accounts', streamIds, amounts, |streamIds|)
      else FailedOnce(row, row') && accounts' == accounts
  }

  /** A replay concludes the row for its own streams and amounts. */
  ghost predicate Replayed(
    row: Row, row': Row, accounts: map<int, Account>, accounts': map<int, Account>, answered: bool)
  {
    Settles(row, row', accounts, accounts', row.streamIds, row.amounts, answered)
  }

  /** The same, perhaps cut short on the way. */
  ghost predicate SettlesUntil(
    row: Row, row': Row, accounts: map<int, Account>, accounts': map<int, Account>, streamIds: seq<int>,
    amounts: seq<int>, answered: bool, stop: StopAfter)
  {
    if stop == TheSubmit then row' == row && accounts' == accounts
    else if answered && (stop == TheConfirm ||
                         (stop == TheWithdraw && !Covered(accounts, streamIds, amounts, |streamIds|)))
      then Confirms(row, row') && accounts' == accounts
    else Settles(row, row', accounts, accounts', streamIds, amounts, answered)
  }

  /** Row `id` was submitted once, no other row was, and a payment is on record when the accounts are charged. */
  ghost predicate Logs(
    s: State, r: State, id: nat, streamIds: seq<int>, amounts: seq<int>, answered: bool, stop: StopAfter)
    requires id < |s.rows|
  {
    && r.submissions == s.submissions + [Submission(id, s.rows[id].status)]
    && r.payments == s.payments +
         if answered && stop != TheSubmit && stop != TheConfirm && Covered(s.accounts, streamIds, amounts, |streamIds|)
           then [Payment(id, streamIds, amounts)] else []
  }

  ghost predicate SameLogs(s: State, r: State) {
    r.submissions == s.submissions && r.payments == s.payments
  }

  /** The row that a new settlement works on. */
  function SettlementRow(rows: seq<Row>, nonce: int, recipient: string): nat {
    var cached := Cached(rows, nonce, recipient);
    if cached.Some? then cached.value else |rows|
  }

  /** The ledger with a PENDING row for a new settlement, unless it works on an old one. */
  function WithSettlement(
    rows: seq<Row>, recipient: string, nonce: int, streamIds: seq<int>, amounts: seq<int>): (after: seq<Row>)
    ensures SettlementRow(rows, nonce, recipient) < |after|
  {
    if Cached(rows, nonce, recipient).Some? then rows
    else rows + [Row(nonce, recipient, streamIds, amounts, Pending, 0)]
  }

  class Settler {
    var rows: seq<Row>
    var accounts: map<int, Account>
    ghost var state: State

    ghost predicate Valid()
      reads this
    {
      rows == state.rows && accounts == state.accounts
    }

    constructor (accounts: map<int, Account>)
      ensures Valid() && state == Opening(accounts)
    {
      this.rows, this.accounts, state := [], accounts, Opening(accounts);
    }

    method ExpectedAmounts(claims: seq<Claim>) returns (amounts: seq<int>)
      ensures amounts == ClaimsOn(accounts, claims)
    {
      amounts := [];
      for i := 0 to |claims|
        invariant |amounts| == i && forall j :: 0 <= j < i ==> amounts[j] == ClaimOn(accounts, claims[j])
      {
        amounts := amounts + [ClaimOn(accounts, claims[i])];
      }
    }

    method BeginSettlement(recipient: string, nonce: int, streamIds: seq<int>, amounts: seq<int>, configured: bool)
      returns (id: nat, ghost t: nat)
      requires Valid()
      modifies this
      ensures Valid() && state == Next(old(state), Begin(recipient, nonce, streamIds, amounts, configured))
      ensures accounts == old(accounts) && t == old(state).nextTask
      ensures t in state.tasks &&
                state.tasks[t] == Task(id, streamIds, amounts, if configured then Submitting else Failing)
      ensures id == SettlementRow(old(rows), nonce, recipient) < |rows|
      ensures rows == WithSettlement(old(rows), recipient, nonce, streamIds, amounts)
      ensures state.submissions == old(state).submissions && state.payments == old(state).payments
    {
      t := state.nextTask;
      state := Next(state, Begin(recipient, nonce, streamIds, amounts, configured));
      var cached := Cached(rows, nonce, recipient);
      if cached.Some? {
        id := cached.value;
      } else {
        id := |rows|;
        rows := rows + [Row(nonce, recipient, streamIds, amounts, Pending, 0)];
      }
    }

    method ConfirmSettlement(id: nat, ghost t: nat)
      requires Valid() && t in state.tasks && state.tasks[t].stage == Confirming && state.tasks[t].id == id < |rows|
      modifies this
      ensures Valid() && state == Next(old(state), Confirm(t, true))
      ensures |rows| == |old(rows)| && Confirms(old(rows)[id], rows[id]) && rows == old(rows)[id := rows[id]]
      ensures accounts == old(accounts) && SameLogs(old(state), state)
    {
      rows := rows[id := rows[id].(status := Confirmed)];
      state := Next(state, Confirm(t, true));
    }

    /** Dead-letters the row when it has failed often enough. */
    method FailSettlement(id: nat, ghost t: nat)
      requires Valid() && t in state.tasks && state.tasks[t].stage == Failing && state.tasks[t].id == id < |rows|
      modifies this
      ensures Valid() && state == Next(old(state), Fail(t, true))
      ensures |rows| == |old(rows)| && FailedOnce(old(rows)[id], rows[id]) && rows == old(rows)[id := rows[id]]
      ensures accounts == old(accounts) && SameLogs(old(state), state)
    {
      var row := rows[id];
      row := row.(status := if row.retryCount >= 3 then DeadLettered else Failed, retryCount := row.retryCount + 1);
      if row.retryCount >= MAX_RETRIES { row := row.(status := DeadLettered); }
      rows := rows[id := row];
      state := Next(state, Fail(t, true));
    }

    /** One transaction over all streams: the first withdrawal that does not fit undoes the others. */
    method RecordWithdrawals(streamIds: seq<int>, amounts: seq<int>, ghost t: nat) returns (ok: bool)
      requires Valid() && t in state.tasks && state.tasks[t].stage == Withdrawing
      requires state.tasks[t].streamIds == streamIds && state.tasks[t].amounts == amounts
      modifies this
      ensures Valid() && state == Next(old(state), Withdraw(t, true)) && rows == old(rows)
      ensures ok <==> Covered(old(accounts), streamIds, amounts, |streamIds|)
      ensures if ok then Grown(old(accounts), accounts, streamIds, amounts, |streamIds|) else accounts == old(accounts)
      ensures state.submissions == old(state).submissions
      ensures state.payments ==
                old(state).payments + if ok then [Payment(old(state).tasks[t].id, streamIds, amounts)] else []
    {
      WithdrawsExactly(accounts, streamIds, amounts, |streamIds|);
      var current := accounts;
      for i := 0 to |streamIds|
        invariant WithdrawAll(accounts, streamIds, amounts, i) == Some(current)
      {
        if AmountAt(amounts, i) > 0 {
          var r := RecordWithdrawal(current, streamIds[i], AmountAt(amounts, i));
          if r.None? {
            ThrowsOnward(accounts, streamIds, amounts, i + 1, |streamIds|);
            state := Next(state, Withdraw(t, true));
            return false;
          }
          current := r.value;
        }
      }
      state := Next(state, Withdraw(t, true));
      accounts := current;
      ok := true;
    }

    /** From the chain's answer on: confirm and withdraw, or record the failure; a failed withdrawal records one too. */
    method Conclude(id: nat, streamIds: seq<int>, amounts: seq<int>, answered: bool, stop: StopAfter, ghost t: nat)
      returns (ghost trace: seq<Event>)
      requires Valid() && t in state.tasks && state.tasks[t] == Task(id, streamIds, amounts, Submitting) && id < |rows|
      modifies this
      ensures Valid() && state == Run(old(state), trace)
      ensures |rows| == |old(rows)| && rows == old(rows)[id := rows[id]]
      ensures SettlesUntil(old(rows)[id], rows[id], old(accounts), accounts, streamIds, amounts, answered, stop)
      ensures Logs(old(state), state, id, streamIds, amounts, answered, stop)
      ensures forall i :: 0 <= i < |trace| ==> OfTask(trace[i], t)
    {
      ghost var before := state;
      state := Next(state, Submit(t, answered));
      trace := [Submit(t, answered)];
      RunOne(before, Submit(t, answered));
      if stop == TheSubmit { return; }
      if answered {
        ConfirmSettlement(id, t);
        trace := Extend(before, trace, Confirm(t, true));
        if stop == TheConfirm { return; }
        var ok := RecordWithdrawals(streamIds, amounts, t);
        trace := Extend(before, trace, Withdraw(t, true));
        if ok || stop == TheWithdraw { return; }
      }
      FailSettlement(id, t);
      trace := Extend(before, trace, Fail(t, true));
    }

    /** A normal settlement, perhaps cut short. */
    method RunSettlement(
      recipient: string, nonce: int, claims: seq<Claim>, configured: bool, answered: bool, stop: StopAfter)
      returns (ghost trace: seq<Event>)
      requires Valid()
      modifies this
      ensures Valid() && state == Run(old(state), trace)
      ensures |claims| == 0 ==> rows == old(rows) && accounts == old(accounts) && SameLogs(old(state), state)
      ensures |claims| > 0 ==>
                var id, ids, amounts :=
                  SettlementRow(old(rows), nonce, recipient), Ids(claims), ClaimsOn(old(accounts), claims);
                var begun := WithSettlement(old(rows), recipient, nonce, ids, amounts);
                && |rows| == |begun| && rows == begun[id := rows[id]]
                && (if stop == TheBegin then rows == begun && accounts == old(accounts) && SameLogs(old(state), state)
                    else if configured then
                      && SettlesUntil(begun[id], rows[id], old(accounts), accounts, ids, amounts, answered, stop)
                      && Logs(old(state).(rows := begun), state, id, ids, amounts, answered, stop)
                    else FailedOnce(begun[id], rows[id]) && accounts == old(accounts) && SameLogs(old(state), state))
    {
      if |claims| == 0 { return []; }
      ghost var before := state;
      var amounts := ExpectedAmounts(claims);
      var id, t := BeginSettlement(recipient, nonce, Ids(claims), amounts, configured);
      ghost var begin := Begin(recipient, nonce, Ids(claims), amounts, configured);
      RunOne(before, begin);
      if stop == TheBegin { return [begin]; }
      if configured {
        ghost var rest := Conclude(id, Ids(claims), amounts, answered, stop, t);
        RunInParts(before, [begin], rest);
        return [begin] + rest;
      }
      FailSettlement(id, t);
      trace := Extend(before, [begin], Fail(t, true));
    }

    /** One replay: the row's nonce is submitted again, for the streams and amounts of the row. */
    method RecoverOne(id: nat, answered: bool) returns (ghost trace: seq<Event>)
      requires Valid() && id < |rows| && state.queue != [] && state.queue[0] == id
      modifies this
      ensures Valid() && state == Run(old(state), trace) && state.queue == old(state).queue[1..]
      ensures |rows| == |old(rows)| && rows == old(rows)[id := rows[id]]
      ensures Replayed(old(rows)[id], rows[id], old(accounts), accounts, answered)
      ensures state.submissions == old(state).submissions + [Submission(id, old(rows)[id].status)]
    {
      ghost var before, t := state, state.nextTask;
      var row := rows[id];
      state := Next(state, Replay);
      RunOne(before, Replay);
      ghost var rest := Conclude(id, row.streamIds, row.amounts, answered, Nothing, t);
      ConcludeKeepsQueue(Next(before, Replay), rest, t, state);
      RunInParts(before, [Replay], rest);
      trace := [Replay] + rest;
    }

    /**
     Crash recovery: the PENDING rows found at the start, one after the other; `answers` are the
     chain's, by position, and `along` the accounts before and after each. Without a key or a
     contract it leaves them all as they are.
     */
    method RecoverPendingSettlements(configured: bool, answers: seq<bool>)
      returns (ghost trace: seq<Event>, ghost along: seq<map<int, Account>>)
      requires Valid() && |answers| >= |PendingIds(rows)|
      modifies this
      ensures Valid() && state == Run(old(state), trace)
      ensures |rows| == |old(rows)|
      ensures !configured ==>
                rows == old(rows) && accounts == old(accounts) && trace == [] && SameLogs(old(state), state)
      ensures configured ==> forall i :: 0 <= i < |rows| ==> rows[i].status != Pending
      ensures forall i :: 0 <= i < |rows| && old(rows)[i].status != Pending ==> rows[i] == old(rows)[i]
      ensures configured ==>
                var pending := PendingIds(old(rows));
                && |along| == |pending| + 1 && along[0] == old(accounts) && along[|pending|] == accounts
                && (forall i :: 0 <= i < |pending| ==>
                      && pending[i] < |rows|
                      && Replayed(old(rows)[pending[i]], rows[pending[i]], along[i], along[i + 1], answers[i]))
                && state.submissions == old(state).submissions + Resubmissions(pending)
    {
      if !configured { return [], []; }
      ghost var before := state;
      var pending := PendingIds(rows);
      RecoveryStarts(rows, accounts, answers);
      state := Next(state, Recover);
      trace, along := [Recover], [accounts];
      RunOne(before, Recover);
      for i := 0 to |pending|
        invariant Valid() && state == Run(before, trace) && state.queue == pending[i..]
        invariant Recovered(before.rows, rows, pending, along, answers, i)
        invariant along[0] == old(accounts) && along[i] == accounts
        invariant state.submissions == before.submissions + Resubmissions(pending[..i])
      {
        ghost var here := state;
        assert Waits(before.rows, rows, pending[i]);
        ghost var rest := RecoverOne(pending[i], answers[i]);
        RecoveredOne(before.rows, here.rows, rows, pending, along, accounts, answers, i);
        RunInParts(before, trace, rest);
        trace, along := trace + rest, along + [accounts];
        OneMoreResubmission(pending, i);
      }
      assert pending[..|pending|] == pending;
      RecoveredAll(before.rows, rows, along, answers);
    }

    /** What a stream's on-chain amount says about it. */
    method DetectDivergence(streamId: int, onChain: Option<int>) returns (d: Divergence)
      requires streamId in accounts
      ensures d == MissingOnChain <==> onChain.None?
      ensures d.OnChainAhead? <==> onChain.Some? && onChain.value > accounts[streamId].withdrawn
      ensures d.OffChainAhead? <==> onChain.Some? && onChain.value < accounts[streamId].withdrawn
      ensures d.OnChainAhead? ==> accounts[streamId].withdrawn + d.difference == onChain.value
      ensures d.OffChainAhead? ==> onChain.value + d.difference == accounts[streamId].withdrawn
    {
      if onChain.None? { return MissingOnChain; }
      var withdrawn := accounts[streamId].withdrawn;
      d := if onChain.value > withdrawn then OnChainAhead(onChain.value - withdrawn)
           else if withdrawn > onChain.value then OffChainAhead(withdrawn - onChain.value) else InStep;
    }

    /** Heals one divergence: the stream reaches the amount on the chain, unless its deposit does not cover it. */
    method HealStream(streamId: int, d: Divergence) returns (healed: bool)
      requires Valid() && d.OnChainAhead? && d.difference > 0
      modifies this
      ensures Valid() && state == Next(old(state), Heal(streamId, d.difference)) && rows == old(rows)
      ensures healed <==>
                streamId in old(accounts) &&
                old(accounts)[streamId].withdrawn + d.difference <= old(accounts)[streamId].deposit
      ensures healed ==>
                streamId in accounts && accounts[streamId].withdrawn == old(accounts)[streamId].withdrawn + d.difference
      ensures forall id ::
                id in old(accounts) && !(healed && id == streamId) ==>
                id in accounts && accounts[id] == old(accounts)[id]
    {
      state := Next(state, Heal(streamId, d.difference));
      if streamId !in accounts { return false; }
      var r := RecordWithdrawal(accounts, streamId, d.difference);
      if r.None? { return false; }
      accounts := r.value;
      healed := true;
    }

    /** A dead-lettered row starts over as FAILED; any other row is refused. */
    method RetryDeadLetter(id: nat) returns (ok: bool)
      requires Valid()
      modifies this
      ensures Valid() && state == Next(old(state), Retry(id)) && accounts == old(accounts)
      ensures ok <==> id < |old(rows)| && old(rows)[id].status == DeadLettered
      ensures rows == if ok then old(rows)[id := old(rows)[id].(status := Failed, retryCount := 0)] else old(rows)
    {
      state := Next(state, Retry(id));
      ok := id < |rows| && rows[id].status == DeadLettered;
      if ok { rows := rows[id := rows[id].(status := Failed, retryCount := 0)]; }
    }
  }

  datatype Divergence = InStep | OnChainAhead(difference: int) | OffChainAhead(difference: int) | MissingOnChain

  /** The first `i` pending rows are concluded, with the accounts along the way, and no other row has changed. */
  ghost predicate Recovered(
    before: seq<Row>, now: seq<Row>, pending: seq<nat>, along: seq<map<int, Account>>, answers: seq<bool>, i: nat)
    requires i <= |pending| <= |answers|
  {
    && |now| == |before| && |along| == i + 1
    && (forall j :: 0 <= j < i ==>
          pending[j] < |now| && Replayed(before[pending[j]], now[pending[j]], along[j], along[j + 1], answers[j]))
    && (forall j :: i <= j < |pending| ==> Waits(before, now, pending[j]))
    && (forall id :: 0 <= id < |now| && before[id].status != Pending ==> now[id] == before[id])
  }

  ghost predicate Waits(before: seq<Row>, now: seq<Row>, id: nat)
    requires |now| == |before|
  {
    id < |now| && now[id] == before[id] && now[id].status == Pending
  }

  lemma RecoveryStarts(rows: seq<Row>, accounts: map<int, Account>, answers: seq<bool>)
    requires |PendingIds(rows)| <= |answers|
    ensures Recovered(rows, rows, PendingIds(rows), [accounts], answers, 0)
  {
    var pending := PendingIds(rows);
    forall j | 0 <= j < |pending| ensures Waits(rows, rows, pending[j]) { PendingIdIs(rows, pending[j]); }
  }

  lemma RecoveredOne(
    before: seq<Row>, here: seq<Row>, now: seq<Row>, pending: seq<nat>, along: seq<map<int, Account>>,
    accounts: map<int, Account>, answers: seq<bool>, i: nat)
    requires pending == PendingIds(before)
    requires i < |pending| <= |answers| && Recovered(before, here, pending, along, answers, i)
    requires |now| == |here| && now == here[pending[i] := now[pending[i]]]
    requires Replayed(before[pending[i]], now[pending[i]], along[i], accounts, answers[i])
    ensures Recovered(before, now, pending, along + [accounts], answers, i + 1)
  {
    var longer := along + [accounts];
    PendingIdsAscend(before);
    assert Waits(before, here, pending[i]);
    forall j | 0 <= j < i + 1
      ensures Replayed(before[pending[j]], now[pending[j]], longer[j], longer[j + 1], answers[j])
    {
      if j < i { assert now[pending[j]] == here[pending[j]]; }
    }
    forall j | i + 1 <= j < |pending| ensures Waits(before, now, pending[j]) {
      assert Waits(before, here, pending[j]);
    }
  }

  lemma RecoveredAll(before: seq<Row>, now: seq<Row>, along: seq<map<int, Account>>, answers: seq<bool>)
    requires |PendingIds(before)| <= |answers|
    requires Recovered(before, now, PendingIds(before), along, answers, |PendingIds(before)|)
    ensures forall i :: 0 <= i < |now| ==> now[i].status != Pending
    ensures forall i :: 0 <= i < |now| && before[i].status != Pending ==> now[i] == before[i]
  {
    forall i: nat | i < |now| ensures now[i].status != Pending {
      PendingIdIs(before, i);
      if before[i].status == Pending {
        var j :| 0 <= j < |PendingIds(before)| && PendingIds(before)[j] == i;
        assert Replayed(before[i], now[i], along[j], along[j + 1], answers[j]);
      }
    }
  }

  function Resubmissions(pending: seq<nat>): seq<Submission> {
    seq(|pending|, i requires 0 <= i < |pending| => Submission(pending[i], Pending))
  }

  lemma OneMoreResubmission(pending: seq<nat>, i: nat)
    requires i < |pending|
    ensures Resubmissions(pending[..i + 1]) == Resubmissions(pending[..i]) + [Submission(pending[i], Pending)]
  {
  }

  lemma {:induction false} ThrowsOnward(
    accounts: map<int, Account>, streamIds: seq<int>, amounts: seq<int>, m: nat, n: nat)
    requires m <= n <= |streamIds| && WithdrawAll(accounts, streamIds, amounts, m).None?
    ensures WithdrawAll(accounts, streamIds, amounts, n).None?
  {
    if m < n { ThrowsOnward(accounts, streamIds, amounts, m, n - 1); }
  }

  ghost method Extend(s: State, trace: seq<Event>, e: Event) returns (longer: seq<Event>)
    ensures longer == trace + [e] && Run(s, longer) == Next(Run(s, trace), e)
  {
    longer := trace + [e];
    assert longer[..|trace|] == trace;
  }

  predicate OfTask(e: Event, t: nat) {
    match e
    case Submit(u, _) => u == t
    case Confirm(u, _) => u == t
    case Withdraw(u, _) => u == t
    case Fail(u, _) => u == t
    case _ => false
  }

  lemma {:induction false} ConcludeKeepsQueue(s: State, trace: seq<Event>, t: nat, r: State)
    requires r == Run(s, trace) && forall i :: 0 <= i < |trace| ==> OfTask(trace[i], t)
    ensures r.queue == s.queue
  {
    if trace != [] { ConcludeKeepsQueue(s, trace[..|trace| - 1], t, Run(s, trace[..|trace| - 1])); }
  }
}
